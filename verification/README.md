# A model of the consumer engine, with proofs

The consumer engine compiles a small segment language to SQL over a multi-tenant catalogue, writes that catalogue
through one writer, reads it through a pool of pinned readers, and feeds it from files, change data capture and
delivery write-backs. This project models those parts in Dafny and proves what they are relied on for.

`dafny verify dfyconfig.toml` checks everything.

## How it is laid out

| file | models |
|---|---|
| `Sequences`, `Values` | lists (filter, map, distinct), cells, rows, three-valued logic, the engine's primitives as parameters |
| `Ast`, `Parse` | the segment language, identifiers and feature names; the structural validator and compile totality |
| `Sql` | the emitted SQL as trees with anonymous holes, and an evaluator that hands parameters out left to right |
| `Compiler` | the compiler: methods that push into one shared vector, proved against functions that say what each adds |
| `Denotation`, `CompilerProof` | what a segment means without SQL, over one tenant's rows; the compiler preserves it |
| `Binding`, `Isolation`, `Guard`, `CatalogueCheck` | placeholder counts; tenant non-interference; what the catalogue guard covers, and the check it makes |
| `Derive`, `Profile`, `ProfileFigures`, `Materialize`, `Snapshot` | the engine's three wrappers around the compiler: the survivor limit; the profile and its figures; the freeze, and materialising end to end |
| `Features`, `Upsert`, `RawWriter`, `Chunks`, `SuppressionLoop` | the writer: feature store with its wide views, keyed MERGE, CDC transaction, chunked insert, write-backs |
| `MicroBatch` | the writer loop's buffers |
| `Cdc`, `Pump` | envelopes to batches, a batch against its events in order, and the pump over crashes and restarts |
| `ReaderPool` | the reload protocol between the writer and the reader workers |
| `Presign`, `Cadence` | export tokens; the regularity score over exact reals |

Code that changes state is imperative here: the compiler's parameter vector, the column collector, the feature,
raw-table and suppression writers, and the micro-batching actor are classes whose methods are proved against
specification functions; the parser's flag loop, deduplication, the chunk loops, the batch accumulator and the hex
coders are loops with invariants. Storage failures are nondeterministic choices inside the methods. The pump and the
reader pool are step systems, because what matters about them is every interleaving.

## Where the code does less than its comments say, or than a reader may expect

- `merge_upserts` matches on the key alone (storage `lib.rs:741-745`), so a batch takes over another tenant's row
  with the same key. Exact condition: `Upsert.OthersUntouchedIff`; instance: `Upsert.UpsertTakesOver`.
- `raw_table_name` joins system and entity with an underscore that both may hold (storage `lib.rs:33-36`), so two
  datasets can be one table. Exact condition: `RawWriter.OneTableIff`; instance: `RawWriter.TwoInOne`.
- `insert_chunked` narrows its chunks for wide rows, `merge_upserts` does not (storage `lib.rs:722-733`): a full chunk
  fits a statement up to 130 columns only. Exact condition: `RawWriter.MergeFitsIff`, `RawWriter.MergeUpserts`.
- A CDC batch is all upserts, then all deletes (`lib.rs:888-890`), so a key deleted and inserted again in one batch is
  lost. Exact condition: `Cdc.BatchIsReplayIff`, `Pump.CommitExact`; instance: `Cdc.ReinsertLost`.
- After a failed apply the pump polls the next batch (`cdc.rs:93-121`). Exact condition for this to leave no gap:
  `Pump.PollOnExact`; instance of loss, from the beginning: `Pump.FirstPutRuns`, `Pump.PollOnLoses`.
- `resume` throws away what it receives while it waits for its partitions, and seeks only those with a committed offset
  (`cdc_kafka.rs:189-211`). Exact condition for a restart to leave no gap: `Pump.StartExact`; instance of loss,
  from the beginning: `Pump.TombstoneRuns`, `Pump.WaitSkips`, `Pump.WaitLoses`.
- A worker reloads the counter after it re-attaches (`execution/src/lib.rs:262-271`), so a commit and bump in between
  is recorded as seen. Exact condition: `ReaderPool.ReloadExact`; instance, a whole run: `ReaderPool.RaceServesStale`.
- The next query is said to retry a failed re-attach (`execution/src/lib.rs:248-251`), but the retry begins with the
  same DETACH (`execution/src/lib.rs:240`): a worker whose ATTACH failed after its DETACH never serves again. Exact
  condition for a retry to be possible: `ReaderPool.RetryExact`; without one nothing brings the worker back,
  `ReaderPool.StuckThroughout`; instance, a whole run: `ReaderPool.StrandingStrands`.
- `write_suppression_idempotent` looks for the identifier in every tenant's rows, not only the writer's own (storage
  `lib.rs:261-302`). When a submission is stored: `SuppressionLoop.StoredIff`; when a tenant's part of the table is what
  its own submissions leave: `SuppressionLoop.OwnPartIff`; instance, in which a contacted user is returned again:
  `SuppressionLoop.ForestalledUserReturned`.
- The comment on the frequency cap speaks of targeted or delivered outcomes (`compiler.rs:646-647`); the code counts
  only targeted ones (`compiler.rs:672-673`), and so does the model: `SuppressionLoop.DeliveriesUncapped`; instance:
  `SuppressionLoop.DeliveredAtCapKept`.
- A failed flush drops its rows, and a batch with invalid names is acknowledged into the buffer and dropped at its
  flush. `MicroBatch` keeps both in the books.
- A terminal op in a set-operation branch validates but never compiles: `Parse.TerminalInBranchFails` and
  `Parse.TerminalInBranchValidates`.
- A set operation is said to be the last op. The validator sees to it, but the compiler returns at a Derive and never
  sees what follows. When it accepts: `Parse.AfterSetOpIff`; instance: `Parse.DeriveHidesSetOp`.
- `materialize` freezes every feature the tenant has when it runs, whatever its timestamp (`engine.rs:612-639`), so
  freezing again after a new feature gives the row a further, NULL pair. The comment at `engine.rs:547` says the engine
  leaves NULL pairs out; without them the freezes agree, `Snapshot.RefreezeStable`; with them exactly when no new
  feature came, `Snapshot.RefreezeIff`.
- `materialize` takes the names from a pooled reader and the values from the writer. Exact condition for a row to have
  all its values: `Snapshot.StaleReaderIff`; a reader that lags by newer timestamps alone costs none,
  `Snapshot.LaggingReader`; instance of a value left out: `Snapshot.StaleReaderMisses`.
- The catalogue check looks for columns in every tenant's `semantic_catalog` rows (`engine.rs:226-234`). Exact condition
  for other tenants' rows to decide: `CatalogueCheck.VerdictBorrowedIff`; instance: `CatalogueCheck.OtherTenantAdmits`.
- The profile queries project the segment's key but join on `user_id`, so they bind only when the key is called
  `user_id`: `Profile.ProfileCorrect`.
- Export tokens are compared as "an exact match", but a plus sign before the expiry, leading zeros in it, and the case
  of the tag's letters are not seen. Exactly which tokens are accepted: `Presign.AcceptedIff`; instance:
  `Presign.PlusReads`.
- The messages of `ident.rs` list `-` among the allowed characters; the patterns exclude it, and so does the model.

## Model

| member | source | states |
|---|---|---|
| CompilerProof.CompileCorrect | crates/query/src/compiler.rs:126-280 | For every database, tenant, rules and clock, a compiled segment's SQL with its parameters bound left to right returns exactly the denoted keys, each once: AND of the ops over the tenant's base rows, then the recursive intersect, union or minus, NULL logic included |
| CompilerProof.PredicateCorrect | crates/query/src/compiler.rs:310-325 | A compiled predicate is true exactly when the two-valued meaning holds, for every operator, with a missing cell or a JSON null satisfying none, `Ne` and `NOT LIKE` included |
| CompilerProof.InFragCorrect | crates/query/src/compiler.rs:343-368 | IN is true when some item equals the cell; NOT IN when every item and the cell are present and differ; an empty list is never, respectively always, true |
| CompilerProof.EventExistsCorrect | crates/query/src/compiler.rs:373-403 | (NOT) EXISTS over an event table is true exactly when the tenant has (no) matching event on its side of the window |
| CompilerProof.LapsedCorrect | crates/query/src/compiler.rs:407-447 | Lapsed holds when the tenant has an event before the window and none in it, with the predicate's parameters bound twice |
| CompilerProof.NoRepeatCorrect | crates/query/src/compiler.rs:658-666 | The anti-join keeps a user exactly when the tenant has no targeted or delivered outcome for that user and campaign |
| CompilerProof.FrequencyCorrect | crates/query/src/compiler.rs:667-678 | GROUP BY with HAVING under NOT EXISTS keeps a user exactly when their targeted outcomes in the window number fewer than the cap |
| CompilerProof.ExcludeCorrect | crates/query/src/compiler.rs:651-683 | Exclude means the conjunction of the rules that are on, and always true when none is |
| CompilerProof.NewestIsArgMax | crates/query/src/compiler.rs:685-724 | Grouping with arg_max picks the newest measured row at or before the bound, the first stored among equals, or none exactly when no row qualifies |
| CompilerProof.PointInTimeCorrect | crates/query/src/compiler.rs:685-724 | The EAV feature predicate with an as-of compares the tenant's newest value at or before it |
| CompilerProof.WideCorrect | crates/query/src/compiler.rs:685-724 | The wide-view feature predicate compares the tenant's newest value, although the view pivots all tenants |
| CompilerProof.SetOpCorrect | crates/query/src/compiler.rs:257-271 | A set operation over a correct branch is correct: its parameters follow the base's and its keys combine as sets |
| Compiler.CompileAt | crates/query/src/compiler.rs:126-280 | The compile loop, pushing into one vector, yields the conjuncts, parameters, sources and error that the specification function says |
| Compiler.PushTenantEq | crates/query/src/compiler.rs:303-306 | Rendering a tenant test appends that tenant as the next parameter and nothing else |
| Compiler.CompileIn | crates/query/src/compiler.rs:343-368 | One hole and one parameter for each item, in order; the first item that is not a scalar is the error |
| Compiler.CompilePredicate | crates/query/src/compiler.rs:310-325 | One hole and one parameter, or the list form; errors as the specification function |
| Compiler.CompileRecency | crates/query/src/compiler.rs:373-403 | Tenant, then the predicate's parameters, in the order of their holes |
| Compiler.CompileLapsed | crates/query/src/compiler.rs:407-447 | Both sides' parameters in the order of their holes |
| Compiler.CompileExclude | crates/query/src/compiler.rs:651-683 | Tenant and campaign, then tenant and cap, each only when its rule is on |
| Compiler.CompileFeature | crates/query/src/compiler.rs:686-724 | Tenant, name, as-of and value, or tenant and value on the wide view |
| Compiler.FirstFailure | crates/query/src/compiler.rs:760-778 | Converting a list reports its first bad item |
| Binding.CompiledHoles | crates/query/src/compiler.rs:126-280 | Every compiled statement, Derive and set operations over Derive included, has as many parameters as placeholders |
| Isolation.KeysIsolated | crates/query/src/compiler.rs:303-306 | Two databases that agree on the tenant's rows give the same keys with the same multiplicity, through nested set operations, NOT EXISTS and the wide view |
| Isolation.DeriveIsolated | crates/query/src/engine.rs:117-166 | They also give the same refusal or the same statement, limit included, and the same metric |
| Isolation.ProfileIsolated | crates/query/src/compiler.rs:546-625 | They also give the same segment size and the same marked events, in the same order, for each of the three profile queries, and so the same figures |
| Parse.ValidatePositions | crates/query/src/parse.rs:149-181 | The one-pass flag loop accepts exactly the op lists whose set operation or terminal op is last, a terminal op after something that narrows |
| Parse.CompilesIff | crates/query/src/parse.rs:40-107 | A validated segment compiles exactly when it nests at most 8 deep, its values match their operators, no terminal op ends a branch without its limit, it has no Characterize and Derive has its limit |
| Parse.AfterSetOpInvalid | crates/query/src/parse.rs:149-181 | The validator rejects whatever follows a set operation |
| Parse.AfterSetOpIff | crates/query/src/compiler.rs:141-149 | The compiler accepts ops after a set operation exactly when before it, through ops that compile, it reaches a Derive that has its limit |
| Parse.DeriveHidesSetOp | crates/query/src/compiler.rs:141-149 | A concrete such segment that compiles |
| Parse.TerminalInBranchFails | crates/query/src/engine.rs:713-725 | A validated segment with a terminal op in a branch does not compile, because the wrappers look at the top level only |
| Parse.TerminalInBranchValidates | crates/query/src/parse.rs:65-107 | A concrete such segment that the validator accepts |
| Guard.CollectColumns | crates/query/src/ast.rs:241-338 | The recursive collector appends exactly the referenced columns, in order |
| Guard.CompileGuarded | crates/query/src/ast.rs:241-338 | For every statement `compile_at` yields, at every depth, each raw column in the SQL other than the tenant's is among the referenced columns (Derive's join column included), and the compiled sources are exactly the raw tables read |
| Guard.CompileNames | crates/query/src/ast.rs:345-360 | Each feature the SQL reads, bound as a parameter or named as a view column, is among the referenced features |
| CatalogueCheck.EnforceCatalogue | crates/query/src/engine.rs:209-304 | The check passes exactly when it is off or every referenced column is catalogued and the tenant has rows of every referenced feature; a refusal names a missing one |
| CatalogueCheck.CheckedReadsKnown | crates/query/src/engine.rs:209-304 | After the check the compiled statement reads only catalogued columns, the tenant's apart, and features the tenant has rows of |
| CatalogueCheck.VerdictBorrowedIff | crates/query/src/engine.rs:222-251 | Catalogues with the same rows of a tenant can give its segment different verdicts exactly when its features are known and some referenced column is not in its own rows |
| CatalogueCheck.OtherTenantAdmits | crates/query/src/engine.rs:222-251 | A concrete segment that passes on another tenant's catalogue row alone |
| CatalogueCheck.ProfileGuarded | crates/query/src/ast.rs:241-338 | The three profile queries read only referenced columns and features, and their sources are exactly the raw tables they read |
| Derive.SameConjuncts | crates/query/src/engine.rs:821-833 | Stripping Derive compiles to the conjuncts and parameters of the survivor CTE, or both fail with the same error |
| Derive.LimitExact | crates/query/src/compiler.rs:462-476 | A LIMIT leaves the survivor CTE whole exactly when there are at most that many survivors |
| Derive.JoinIsFilter | crates/query/src/compiler.rs:496-521 | Joining distinct survivors to the event table takes each survivor's event row of the tenant exactly once |
| Derive.DeriveExact | crates/query/src/engine.rs:117-166 | On one database the measured limit never truncates: the metric is the aggregate over the survivors' events, and the survivors are within the cap |
| Derive.DeriveRefused | crates/query/src/engine.rs:143-166 | Derive is refused as unbounded exactly when the denoted survivors exceed the cap |
| Profile.LeftJoinIs | crates/query/src/compiler.rs:546-625 | The left join marks each event row with whether its user is in the segment, without multiplying it |
| Profile.ProfileCorrect | crates/query/src/compiler.rs:546-625 | Each profile query marks the tenant's events by membership when the key is called `user_id`, and does not bind otherwise; its parameters fit |
| ProfileFigures.MetricsAgree | crates/query/src/compiler.rs:574-591 | The metrics over the marked events are users, average order value, orders per user and orders of the members' events and of all |
| ProfileFigures.RecencyAgrees | crates/query/src/compiler.rs:593-606 | The average age of each user's last event, of the members and of all, with no user counted twice |
| ProfileFigures.CategoriesAgree | crates/query/src/compiler.rs:608-618 | Each category's group counts the tenant's events in it, the members' and all |
| ProfileFigures.TopAgrees | crates/query/src/compiler.rs:608-618 | A list of categories is one the ordering and limit may keep exactly when it is a list of the segment's top three among the tenant's events |
| ProfileFigures.TopCounts | crates/query/src/compiler.rs:608-618 | Whichever of tied categories are kept, the counts are the same |
| ProfileFigures.ProfileFiguresCorrect | crates/query/src/compiler.rs:546-625 | The three queries, run from their SQL and parameters, give these figures of the tenant's own events against the denoted segment, the kept categories among them |
| Materialize.Assemble | crates/query/src/engine.rs:550-591 | The loop that pushes joins and parameters, then the writer's prefix, yields one INSERT over the wrap with its parameters in the order of the holes |
| Materialize.EvalInsertIs | crates/storage/src/lib.rs:1131-1159 | The INSERT with its parameters bound left to right stamps id, campaign, as-of, tenant and hit reason on the segment's rows, each family joined at the as-of for the tenant: every layer's hole gets the value of its role |
| Materialize.MaterializeCorrect | crates/query/src/engine.rs:524-601 | For any families and cut-off: one snapshot row for each denoted key however many family pivots are joined, every scalar in its column, each feature the tenant's newest at or before the cut-off |
| Materialize.CutoffIsOldest | crates/query/src/engine.rs:508-518 | The cut-off is at most every registered source epoch, is one of them, and is the clock only when none is registered |
| Snapshot.FeatureFamilies | crates/query/src/engine.rs:612-639 | From the stored names in any order: the families in byte order, each with its short names in byte order, none twice, exactly the names that split |
| Snapshot.MaterializeSegment | crates/query/src/engine.rs:471-601 | End to end, over the reader's state and the writer's: refused exactly for a Derive or Characterize, for a name the catalogue check misses, or with the compiler's own error; otherwise a row for each key denoted in the writer's state, holding its values of every feature the reader has, at the oldest source epoch, or the clock; no features when the store cannot be read |
| Snapshot.ValuesExact | crates/query/src/engine.rs:550-591 | A row's values are exactly, for every feature the reader has, the newest the writer has at or before the cut-off |
| Snapshot.StaleReaderIff | crates/query/src/engine.rs:524-591 | A row has all the values the writer's own names would give exactly when the reader's state has every feature of which the writer has a value at or before the cut-off |
| Snapshot.LaggingReader | crates/query/src/engine.rs:524-591 | A reader that lacks only rows newer than the cut-off costs no value |
| Snapshot.StaleReaderMisses | crates/query/src/engine.rs:524-591 | A concrete measurement that the writer has and the row does not show |
| Snapshot.SnapshotIsolated | crates/query/src/engine.rs:471-601 | Catalogues that agree on the tenant, the reader's and the writer's, give it the same snapshot, up to the order of the rows |
| Snapshot.RefreezeStable | crates/query/src/engine.rs:540-591 | Freezing again at the same cut-off, the families recomputed, gives the same values under the same names in the same order, whatever came since with newer timestamps, new features included |
| Snapshot.RefreezeIff | crates/query/src/engine.rs:540-591 | With NULL pairs kept the two freezes are the same list exactly when no later row brings the tenant a new feature name |
| Ast.SplitJoin | crates/core/src/feature.rs:21-34 | Joining a family and a short name and splitting again gives them back |
| Ast.InFamilyIff | crates/storage/src/lib.rs:480-502 | The prefix test `family.` selects exactly that family's names |
| Features.ShortNames | crates/storage/src/lib.rs:480-502 | Exactly the short names stored under the family |
| Features.FeatureWriter.Refresh | crates/storage/src/lib.rs:512-549 | A rebuilt view has exactly the stored short names, each once; other views stay |
| Features.FeatureWriter.WriteFeatures | crates/storage/src/lib.rs:429-468 | Committed: the rows are appended and every view agrees with the base. Failed at any step: nothing changed |
| Features.AgreesCovers | crates/storage/src/lib.rs:512-549 | Agreement of index and base is what the compiler's theorem asks of the catalogue |
| Features.WideAgreesWithPointInTime | crates/query/src/compiler.rs:685-724 | The wide-view predicate equals the point-in-time predicate for any as-of at or after the tenant's newest row |
| Upsert.UpsertsAreOneMerge | crates/storage/src/lib.rs:715-763 | Upserting rows one by one leaves the table one MERGE of their deduplication leaves |
| Upsert.MergeIsUpsertAll | crates/storage/src/lib.rs:715-763 | A MERGE whose keys do not repeat does what upserting its rows in order does |
| Upsert.FindReplaced | crates/storage/src/lib.rs:715-763 | After an upsert a look-up of its key finds its row |
| Upsert.AffectsEachOnce | crates/storage/src/lib.rs:715-763 | Where keys are unique, each source row affects exactly one row, so a MERGE reports as many as it was given |
| Upsert.RunKeepsUnique | crates/storage/src/lib.rs:684-814 | Unique keys stay unique over every run of upserts and deletes |
| Upsert.DeleteAppend | crates/storage/src/lib.rs:793-814 | Deleting chunk by chunk is deleting at once |
| Upsert.OthersUntouchedIff | crates/storage/src/lib.rs:741-745 | An upsert leaves other tenants' rows as they are exactly when none of them has a key of the batch |
| Upsert.UpsertTakesOver | crates/storage/src/lib.rs:741-745 | A concrete row of one tenant taken over by another's upsert |
| RawWriter.DedupByKey | crates/storage/src/lib.rs:684-707 | The hash-map loop keeps one slot for each key, at the key's first place and with its last row, and skips rows without a key |
| RawWriter.DedupIsUpsertAll | crates/storage/src/lib.rs:684-707 | Deduplicating is upserting into an empty table |
| RawWriter.DedupedUpserts | crates/storage/src/lib.rs:684-763 | Merging the deduplicated batch leaves what upserting the original rows in order leaves |
| RawWriter.RowOfIs | crates/storage/src/lib.rs:750-757 | A merged row has its cell under each column and the writer's tenant |
| RawWriter.MergeUpserts | crates/storage/src/lib.rs:715-763 | However many 500-row chunks succeed, the table is the upsert of their rows in order and their rows are counted; a chunk whose cells do not fill its placeholders, or are too many for a statement, is refused; with aligned rows and no storage failure all succeed exactly when the first chunk fits |
| RawWriter.MergeFitsIff | crates/storage/src/lib.rs:722-749 | All chunks fit exactly when the largest does; with 500 rows or more, exactly up to 130 columns |
| RawWriter.MergeDeletes | crates/storage/src/lib.rs:793-814 | However many chunks succeed, exactly the tenant's rows with those keys are gone, and counted |
| RawWriter.UpsertTable | crates/storage/src/lib.rs:684-763 | Deduplicate then merge: all rows upserted in order, or a leading run of chunks; with aligned rows and no storage failure, all of them exactly when the chunks fit |
| RawWriter.Writer.UpsertRaw | crates/storage/src/lib.rs:631-678 | Validation errors exactly as stated and without effect; success is the sequential upsert, one bump, and a count of the distinct keys where keys are unique; failure may leave leading chunks and bumps nothing; misaligned rows succeed only if their cells fill the placeholders; other tables stay |
| RawWriter.Writer.DeleteRaw | crates/storage/src/lib.rs:773-788 | Success removes the tenant's rows with the keys, returns how many and bumps; an empty list does nothing |
| RawWriter.Writer.ApplyCdcBatch | crates/storage/src/lib.rs:831-916 | Upserts, deletes and offsets all committed with one bump and the upserts counted, or tables, offsets and counter exactly as before |
| RawWriter.Writer.CommitOffsets | crates/storage/src/lib.rs:921-942 | One offset for each source and partition, the batch's replacing the old |
| RawWriter.OneTableIff | crates/storage/src/lib.rs:33-36 | Two datasets are one table exactly when they are equal or one's system goes on into the other's entity |
| RawWriter.TwoInOne | crates/storage/src/lib.rs:33-36 | Two concrete valid datasets in one table |
| Cdc.NextBatch | crates/ingestion/src/cdc_kafka.rs:217-277 | The batch is exactly the deliveries taken, at most 500 changes, with each partition's last offset; none exactly when nothing was taken |
| Cdc.OneChange | crates/ingestion/src/cdc_kafka.rs:122-156 | A message carries at most one upsert or delete, its row as wide as the table |
| Cdc.BatchApplied | crates/storage/src/lib.rs:883-890 | What the transaction does to the table, said of the batch's messages |
| Cdc.OffsetsCommitted | crates/storage/src/lib.rs:891-900 | In whatever order the offsets are listed, each delivered partition gets its last offset and all others keep theirs |
| Cdc.LookupReplay | crates/ingestion/src/cdc.rs:1-15 | Replaying events in order leaves each key with what its last event says |
| Cdc.LookupApply | crates/storage/src/lib.rs:888-890 | Applying a batch leaves a deleted key absent and any other key with its last row |
| Cdc.BatchIsReplayIff | crates/storage/src/lib.rs:888-890 | A batch equals sequential replay on every key exactly when it re-inserts no key it deletes |
| Cdc.ReinsertLost | crates/storage/src/lib.rs:888-890 | A concrete delete-then-insert that a batch loses |
| Pump.RunFolded | crates/ingestion/src/cdc.rs:71-123 | In every run of deliveries in any interleaving, commits, crashes and restarts that re-deliver the committed offset, each key holds the last event of its partition's committed log, one row each; given stable keys, no re-insertion in one batch, restart after a failed apply, and restarts that throw away only what comes again |
| Pump.StartExact | crates/ingestion/src/cdc_kafka.rs:181-214 | From such a state, a restart leads to such a state exactly when every partition its wait threw messages away from has a committed offset |
| Pump.TombstoneRuns | crates/ingestion/src/cdc.rs:71-123 | A run from the beginning to the restart below: a tombstone committed, its partition alone with an offset |
| Pump.WaitSkips | crates/ingestion/src/cdc_kafka.rs:189-211 | A concrete restart whose wait throws away the first message of a partition without a committed offset and goes on from the second |
| Pump.WaitLoses | crates/ingestion/src/cdc_kafka.rs:189-211 | The commit that follows it: the first message's row is missing although the partition's committed offset is past it |
| Pump.CommitExact | crates/ingestion/src/cdc.rs:93-105 | From such a state, a commit leads to such a state exactly when its batch re-inserts no key |
| Pump.CommittedTo | crates/ingestion/src/cdc_kafka.rs:217-277 | A commit moves a partition's offset to its last pending message, and only if it has one |
| Pump.CommitIsTransaction | crates/storage/src/lib.rs:888-900 | A commit step does to table and offsets what the transaction does with the batch accumulated from the same messages |
| Pump.MappedStable | crates/ingestion/src/cdc_kafka.rs:122-171 | Whatever the messages say, mapped rows fit the table; only that keys stay in their partitions is asked of the topic |
| Pump.PollOnExact | crates/ingestion/src/cdc.rs:106-121 | Polling on after a failure leaves no gap exactly when the lost batch held only messages already committed |
| Pump.FirstPutRuns | crates/ingestion/src/cdc.rs:71-123 | A run from the beginning to the failure below |
| Pump.PollOnLoses | crates/ingestion/src/cdc.rs:106-121 | A concrete run in which polling on loses a row for good |
| MicroBatch.FlushBalances | crates/ingestion/src/lib.rs:797-810 | A flush moves a buffer's rows to the table or, failing, to the lost, and nothing else |
| MicroBatch.FlushInOrder | crates/ingestion/src/lib.rs:797-810 | Without a storage failure, table rows followed by buffered rows stay the well-named accepted rows in order of arrival |
| MicroBatch.ReceiveInOrder | crates/ingestion/src/lib.rs:632-646 | Arriving rows join the end of their own buffer |
| MicroBatch.GainedBatch | crates/storage/src/lib.rs:559-619 | Appending a batch to its table gains its rows there, stamped with its tenant, and no other table's |
| MicroBatch.Actor.InsertRows | crates/storage/src/lib.rs:559-619 | Refused rows leave no trace; otherwise a leading part of the rows joins the table and the log, all of it on success with one bump, stamped with the writer's tenant, in its own columns where each row is as wide as its columns |
| MicroBatch.Actor.FlushBatch | crates/ingestion/src/lib.rs:797-810 | The buffer is gone, the books balance, the tables gained the rows logged, and the batch's own tenant was stamped |
| MicroBatch.Actor.FlushSome | crates/ingestion/src/lib.rs:816-840 | Exactly the chosen buffers are flushed, failures notwithstanding |
| MicroBatch.Actor.FlushExpired | crates/ingestion/src/lib.rs:855-869 | Exactly the buffers younger than the age remain, unchanged; an age of zero turns it off |
| MicroBatch.Actor.IngestRaw | crates/ingestion/src/lib.rs:598-650 | Rows join a buffer of their shape, one of another shape is flushed first, and reaching the threshold flushes; the reply says which; other buffers are untouched |
| MicroBatch.Actor.Turn | crates/ingestion/src/lib.rs:577-789 | Every turn keeps the books of aligned rows and no buffer at the threshold; compaction, shutdown and disconnection leave none, and compaction then covers every table with rows. Expired buffers land first; an upsert, delete or CDC batch then does to the tables they leave what its operation says, under its own tenant, makes its table known, and leaves younger buffers waiting; any other command changes the tables by what is logged and nothing else |
| MicroBatch.Actor.WriterLoop | crates/ingestion/src/lib.rs:577-789 | Over any command sequence that ends by shutdown or disconnection without storage failure, its rows as wide as their columns, the rows inserted for each tenant and table are exactly the well-named ones sent, in order of arrival; without upserts, deletes or CDC batches every table is what it was followed by its rows among them |
| Chunks.ChunkRows | crates/storage/src/lib.rs:1203-1209 | At most 500 rows and at most 65,535 parameters in a chunk; zero rows exactly when one row is already too wide |
| Chunks.WideRowsStillFit | crates/storage/src/lib.rs:1203-1209 | No larger chunk would respect the limits |
| Chunks.InsertChunked | crates/storage/src/lib.rs:1193-1224 | Every statement has at least one row and as many parameters as placeholders, within the limit; statements hold the rows in order, none twice; success inserts all and returns their number; too wide a row panics |
| Chunks.LandsAligned | crates/storage/src/lib.rs:1193-1224 | Cut back into rows by the statement's width, the parameters are the rows as they were bound, if each row binds as many as there are columns |
| SuppressionLoop.Writer.WriteOutcomes | crates/storage/src/lib.rs:268-302 | Inserts each outcome whose identifier is new and returns how many; a failure keeps the rows before it |
| SuppressionLoop.TableIsFirsts | crates/storage/src/lib.rs:261-267 | The table is the first row of each identifier, in order |
| SuppressionLoop.ReplayWritesNothing | crates/storage/src/lib.rs:261-267 | Submitting again what is stored, in any order, changes nothing |
| SuppressionLoop.StoredIff | crates/storage/src/lib.rs:268-302 | A submission is stored exactly when no earlier one of any tenant has its identifier, or that one is the same row |
| SuppressionLoop.OwnPartIff | crates/storage/src/lib.rs:268-302 | A tenant's part of the table is what its own submissions alone would leave exactly when no other tenant got to one of its identifiers first |
| SuppressionLoop.ForestalledUserReturned | crates/storage/src/lib.rs:268-302 | Two tenants with one identifier: the second one's contact is not stored, and its next segment that excludes the campaign returns the user |
| SuppressionLoop.DeliveriesUncapped | crates/query/src/compiler.rs:667-678 | However many deliveries and no targets a user has, the frequency cap keeps the user |
| SuppressionLoop.DeliveredAtCapKept | crates/query/src/compiler.rs:667-678 | A concrete user with a delivery under a cap of one who is kept |
| SuppressionLoop.RunOfBatches | crates/storage/src/lib.rs:268-302 | Over any run of batches with any replays the returned counts add up to the rows stored |
| SuppressionLoop.NoRepeatEver | crates/query/src/compiler.rs:642-666 | Once a contact is stored, no later segment that excludes its campaign returns that user to that tenant, but for a final union whose other side has them |
| ReaderPool.EveryAnswer | crates/execution/src/lib.rs:225-284 | In every interleaving an answer holds all commits its query's first load covers exactly when it refreshed or its worker missed no bump, and is younger than the interval plus the attach's duration |
| ReaderPool.AllFresh | crates/execution/src/lib.rs:225-284 | With no bump between a re-attach and its reload, every answer holds every commit whose bump preceded the query's load |
| ReaderPool.ReloadExact | crates/execution/src/lib.rs:262-271 | A reload records a counter its snapshot does not live up to exactly when a bump for a newer commit came since the attach |
| ReaderPool.RaceServesStale | crates/execution/src/lib.rs:262-271 | A whole run of a valid pool whose last query is served without a commit its counter load covers |
| ReaderPool.StaysDirty | crates/execution/src/lib.rs:244-277 | A failed re-attach never marks a worker clean: it keeps needing a refresh until its own reload |
| ReaderPool.DetachedIsStuck | crates/execution/src/lib.rs:240-278 | A re-attach that fails after its DETACH leaves the worker stuck |
| ReaderPool.StuckForever | crates/execution/src/lib.rs:240-278 | A stuck worker stays stuck under every step of any worker or writer, never re-attaches and serves nothing |
| ReaderPool.StuckThroughout | crates/execution/src/lib.rs:240-278 | And so over every continuation, however long |
| ReaderPool.RetryExact | crates/execution/src/lib.rs:240-278 | After a failed re-attach the promised retry can succeed exactly when the catalogue is still attached |
| ReaderPool.StrandingStrands | crates/execution/src/lib.rs:240-278 | A whole run that ends with a worker stuck |
| ReaderPool.RoundRobin | crates/execution/src/lib.rs:189-199 | Of any N consecutive queries each of N workers gets exactly one |
| Presign.HexEncode | crates/ingress/src/presign.rs:101-107 | The loop prints two digits for each byte, in order |
| Presign.HexDecode | crates/ingress/src/presign.rs:110-129 | The indexed loop returns the bytes whose digit pairs the text is, and nothing for odd length or any other character |
| Presign.HexRoundTrip | crates/ingress/src/presign.rs:101-129 | Decoding undoes encoding (base16, section 8 of RFC 4648) |
| Presign.HexRespelt | crates/ingress/src/presign.rs:101-139 | Encoding undoes decoding up to the case of the letters |
| Presign.DecimalParses | crates/ingress/src/presign.rs:76-78 | A printed 64-bit expiry parses back |
| Presign.Sign | crates/ingress/src/presign.rs:56-66 | The token is the saturated expiry and the tag of "id.expiry" |
| Presign.Verify | crates/ingress/src/presign.rs:72-98 | Accepts exactly the tokens that read back as an expiry still ahead and the tag of this id and expiry |
| Presign.RoundTrip | crates/ingress/src/presign.rs:56-98 | For any key, id, clock and lifetime, a signed token verifies exactly until its expiry |
| Presign.PayloadInjective | crates/ingress/src/presign.rs:61-61 | Id and expiry can be told apart in what is authenticated, whatever the id holds |
| Presign.OneTokenOneId | crates/ingress/src/presign.rs:72-98 | A token accepted for two ids exhibits two payloads with one tag |
| Presign.DecodesIff | crates/ingress/src/presign.rs:110-129 | A text decodes to given bytes exactly when it is their encoding but for the case of its letters |
| Presign.ParsesIff | crates/ingress/src/presign.rs:76-78 | A text parses to an expiry exactly when it is its decimal digits after zeros and perhaps a plus sign, within 64 bits |
| Presign.AcceptedIff | crates/ingress/src/presign.rs:72-98 | A token reads back as an expiry and its tag exactly when its two parts spell them so |
| Presign.PlusReads | crates/ingress/src/presign.rs:76-78 | A leading plus sign is such a spelling |
| Cadence.InUnit | crates/ingestion/src/producers/cadence.rs:129-151 | For sorted times the score is between zero and one |
| Cadence.PerfectIff | crates/ingestion/src/producers/cadence.rs:129-151 | It is one exactly for at least two evenly spaced, not simultaneous, events |
| Cadence.PositiveIff | crates/ingestion/src/producers/cadence.rs:129-151 | It is positive exactly with at least two events and n times the sum of squares below twice the square of a positive sum |
| Cadence.Invariant | crates/ingestion/src/producers/cadence.rs:129-151 | Shifting or positively scaling all times leaves it as it is |

## What is a parameter

The clock, timestamp and number parsing, collation, LIKE, comparisons across types (`Values.Engine`); JSON printing
(`Cdc.Mapper`); UTF-8 lengths and timestamp syntax in the validator (`Parse.Library`); UUID parsing
(`SuppressionLoop.Uuids`); the MAC, 32 bytes long (`Presign.Mac`); the square root of the variance (`Cadence.IsDeviation`);
the printing of an epoch in `Snapshot.MaterializeSegment`, which speaks of epochs the engine reads back as printed. Nothing else is
assumed about them beyond what their types and definitions say.

## Left out

- The engine itself: attaching, snapshots on disk, compaction, row estimates; a table is a list of rows and a transaction is all or nothing.
- SQL text and the read and write catalogue aliases: trees with holes carry the properties.
- Errors the engine raises at run time: casts, absent tables and columns, ill-typed comparisons. `Typed` states the column types of the CREATE TABLE statements.
- A feature whose short name is `user_id` or `tenant_id` would give a wide view, or a frozen family, two columns of one name; `NoShadow` sets it aside where a wide view is read and `PlainShorts` and `PlainNames` where one is frozen, because the engine's binder decides what happens then.
- ProfileFigures.ProfileFiguresCorrect: does not model which of tied categories are kept, because that is the engine's choice; nor the JSON the figures become.
- CatalogueCheck.EnforceCatalogue: does not model which missing name is reported first, nor the warning on a stale catalogue.
- Snapshot.MaterializeSegment: does not model the EXPLAIN estimate, which only logs.
- JSON text of frozen features and hit reasons: pairs of name and value stand for it.
- The order of a wide view's columns: a set stands for it.
- What a batch of rows narrower or wider than their columns leaves in the table when their cells still fill the placeholders: `RawWriter` says when it is accepted and `MicroBatch` stores it as the placeholders cut it, but the books are of aligned rows.
- Widening an existing table: a batch whose columns the table lacks is a storage failure like any other.
- Pump.RunFolded: does not model a restart whose partition assignment times out, after which the consumer would start from the beginning.
- Cdc.NextBatch: does not model the receive deadline as time; the loop may stop before any delivery.
- Kafka group membership and rebalancing, backoff and freshness marks.
- MicroBatch.Actor.InsertRows: does not model what becomes of the writer thread after a panic on a row wider than the parameter limit, which counts as a fault here.
- MicroBatch.Actor.Turn: does not model what features, catalogue entries, outcomes and snapshots do to their own tables, which no raw table shares; `Features`, `SuppressionLoop` and `Snapshot` do.
- ReaderPool.EveryAnswer: does not model 64-bit wrap-around of the counters.
- Floating point: sums, averages and the cadence score are over exact reals.
- Constant-time comparison and key handling of the tokens.
- HTTP routing, configuration, file locking, exports, job registry, freshness labels, the guardrail on row estimates and the semantic layer: short claims about single branches, or networks.
