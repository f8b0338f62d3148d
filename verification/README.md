# Untangled: verified models

Dafny models of the parts of Untangled whose behaviour spans many steps, with proofs of what they keep.
Check everything with `dafny verify dfyconfig.toml`.

| part | files | what it models |
|---|---|---|
| Schema planner | `SchemaIR`, `Catalog`, `CatalogLaws`, `TopoSort`, `SchemaDiff`, `DiffMembers`, `DiffRuns`, `DiffShape`, `DiffCorrect`, `DiffTheorems`, `DiffUnmanaged`, `PlanSteps`, `PlanRows`, `DiffWitness`, `Serialize`, `Migrate` | `diff_schemas` as a compiler to DDL operations; each operation has a precondition and an effect on a flat catalog, and the plan is run |
| Search | `Like`, `SearchSql`, `SearchTree`, `SearchRequest`, `SearchCompile`, `SearchCorrect`, `SearchPages`, `Enrichment`, `SearchExecute` | raw predicate trees compiled to parameterised SQL, re-parsed and evaluated in three-valued logic; joins, order, paging and identities |
| Sessions | `SessionStore`, `SessionRuns`, `SessionTheorems`, `SessionLate`, `RefreshPipeline`, `SessionTx`, `SessionTxSafe`, `SessionTxTheorems`, `SessionTxScope` | refresh-token rotation twice: with atomic steps (the in-memory store) and as interleaved transactions at read-committed isolation |
| Rate limiter | `RateLimit`, `RateLimitRuns`, `RateLimitRedis` | sliding windows, lockout and grace; the in-memory form and the WATCH/MULTI/EXEC form with any number of clients |
| Permission cache | `PermissionCache`, `PermissionTags` | readers of two services, version-bumping mutators and a lossy Redis |
| Record numbers | `FriendlyIds` | sequence starts and zero-padded ids |
| Shared | `Prelude`, `Ordering` | optional values, append loops, stable sorting |

SQL meanings follow SQL-92 (ISO/IEC 9075:1992): LIKE with ESCAPE is section 8.5, three-valued logic section 8.12.

## What the proofs found

* **Primary keys.** `diff_schemas` reaches the desired schema exactly when shared tables have equal primary
  keys, new tables have at most one key column and no kept foreign key depends on an index that is replaced.
  Composite keys are never written by CREATE TABLE, keys are never compared, and a renamed unique index under
  a kept foreign key makes the plan stop (`DiffWitness` has one pair of schemas for each).
* **Tables known by name only.** A table that no class describes is dropped, but only after other changes: one of
  its foreign keys on a column or unique index that goes makes the plan stop before the drop.
* **Required columns.** On tables with rows a plan lands exactly when, besides that, every new required column has a
  create default.
* **Cleanup.** `used_refresh_token.session_id` references `user_session` without ON DELETE. One session that was
  rotated shortly before it expired makes the whole DELETE of expired sessions fail until its reuse window ends.
* **Chain deletion.** With interleaved transactions a logout or a hard reuse fails on that foreign key when a
  rotation of the session commits between its two DELETE statements. Single use and "closed stays closed" hold
  in every interleaving nevertheless.
* **First refresh.** A password change hands out a first refresh token without looking at the absolute expiry;
  the cookie age agrees with the stored expiry exactly when the session had not expired. An expired session can
  be reached with a live access token exactly when the access lifetime exceeds the total one; the token issued
  then is refused on first use.
* **Paging.** "Start past the last page" also holds for starts inside the last page that still show rows.
* **Cache.** An entry's version tag can be older than its keys, never newer, which is why the compare is safe. The
  tag fits the keys exactly when the effective set did not change between the two reads of one lookup.
* **Record numbers.** A resolved start never repeats an id. An explicit start is safe exactly when no stored value
  prints a number from it on, which across all widths means: when it lies above the largest stored number.

## Assumptions

* Planner: names are unique per table and relation names per schema, columns named by keys, foreign keys and
  indexes exist, CHECK expressions name columns through an uninterpreted function. Nothing else is assumed;
  what the code does not check appears as a condition of `DiffTheorems.PlanLandsExactly`.
* Search: type coercion, comparison and the `~` operator are uninterpreted functions; rows have distinct,
  non-null ids.
* Sessions: minted token HMACs and session ids are new. A session is named only by a token signed after its row
  was committed. Time is an argument of every step.
* Interleaved sessions: each statement sees the committed state, a row lock makes a statement wait and check
  its predicate again, uncommitted changes are invisible, any transaction may abort at any point, and the two
  cleanup statements commit on their own.
* Rate limiter: thresholds and periods are not negative, as the clamping of the settings ensures; four fifths of the budget
  is compared in whole numbers.
* Permission cache: every privilege mutation bumps the version in its own transaction; role flattening is an
  arbitrary function of the privilege state.

## Model

| member | source | states |
|---|---|---|
| TopoSort.TopoSort | backend/src/untangled/schema/diff.py:227-268 | Terminates for any dependency map and returns the named tables, each once. When the foreign keys among them (self references aside) do not loop, every referenced table comes before (creates) or after (drops) the tables that reference it; when they do, the result is the sorted names. |
| TopoSort.SortGraph | backend/src/untangled/schema/diff.py:253-268 | The queue loop: every table whose in-degree reaches zero is placed once, and tables are left over exactly when there is a cycle. |
| TopoSort.DirectionIrrelevantForCycles | backend/src/untangled/schema/diff.py:238-251 | Building the graph for drops (edges reversed) or for creates finds the same cycles. |
| TopoSort.TopoOrderFollowsReferences | backend/src/untangled/schema/diff.py:227-268 | Any order that respects the computed dependencies follows the foreign keys of the tables themselves, and the fallback is taken exactly when those loop. |
| SchemaDiff.DiffColumns | backend/src/untangled/schema/diff.py:196-224 | Drops of columns only the current table has come before type and nullability changes of shared columns, in name order. |
| SchemaDiff.CollectDrops | backend/src/untangled/schema/diff.py:57-99 | The drop loops select exactly the foreign keys, indexes or checks that are gone or differ, and all of a dropped table. |
| SchemaDiff.CollectAdds | backend/src/untangled/schema/diff.py:146-180 | The add loops select exactly the desired members that the current table lacks or has in another form. |
| SchemaDiff.DiffSchemas | backend/src/untangled/schema/diff.py:33-182 | The loops produce one of the plans of the specification: detach constraints, reshape and drop, create and grow, attach constraints, with table orders from the dependency sort. What such a plan holds is stated by `PlanSteps.PlanIsTheDifference` and `PlanRows.DefaultsAreTemporary` without it. |
| PlanSteps.PlanIsTheDifference | backend/src/untangled/schema/diff.py:33-182 | For all snapshots with unique names a plan holds exactly the operations that the difference calls for, operation by operation: columns and members that only one side has or that differ, with old and new types, nullability and create defaults, and goes through the phases in order. |
| PlanSteps.PlanFollowsReferences | backend/src/untangled/schema/diff.py:105-118 | In any plan a referenced table is created before and dropped after the tables that reference it, unless those references loop. |
| PlanRows.DefaultsAreTemporary | backend/src/untangled/schema/diff.py:120-139 | Every added column carries its create default exactly when it is required and has one, and the next operation drops that default; no other default is dropped. |
| PlanRows.PlanLandsOnRowsExactly | backend/src/untangled/schema/diff.py:120-139 | Whatever tables hold rows, the plan passes and lands if and only if it does on an empty database and every new required column of a populated table has a create default. |
| PlanRows.PlanLandsOnFilledDatabaseExactly | backend/src/untangled/schema/migrate.py:63-86 | The same on a database with tables known by name only. |
| CatalogLaws.RunKeepsConsistent | backend/src/untangled/schema/ddl.py:30-116 | Whatever list of DDL operations the server runs, no dangling reference, duplicate name or nullable key column can result. |
| CatalogLaws.NonDestructiveRunPreserves | backend/src/untangled/schema/plan.py:10-289 | A run without an operation flagged destructive keeps every table, every column with its type, every foreign key, index and sequence, and only loosens nullability. |
| CatalogLaws.DestructiveExactly | backend/src/untangled/schema/plan.py:10-289 | An operation is flagged destructive if and only if there is a consistent catalog on which the server accepts it and something is lost. |
| CatalogLaws.CreatedPrimaryKey | backend/src/untangled/schema/ddl.py:119-134 | The primary key a new table ends with is the one CREATE TABLE wrote, which holds one column at most. |
| DiffCorrect.PlannableLands | backend/src/untangled/schema/diff.py:33-182 | Every operation of the plan finds its precondition met and the list ends in the desired schema, with no create default left behind and existing sequences keeping their value. |
| DiffTheorems.PlanLandsExactly | backend/src/untangled/schema/diff.py:33-182 | For all well-formed schema pairs the plan runs without a refused statement and reaches the desired schema if and only if shared tables have equal primary keys, new tables have at most one key column, and every kept foreign key references a primary key or a unique index that is kept too. |
| DiffTheorems.UnstableKeysGetStuck | backend/src/untangled/schema/diff.py:73-85 | A kept foreign key whose referenced key is not kept stops every plan of every such schema pair at a refused statement. |
| DiffTheorems.KeysAfterPlan | backend/src/untangled/schema/ddl.py:119-134 | Whatever keys are desired, a plan that runs leaves shared tables their primary keys and gives new tables the key of CREATE TABLE. |
| DiffUnmanaged.PlanLandsOnDatabaseExactly | backend/src/untangled/schema/migrate.py:63-86 | On a database with tables that no class describes, which the snapshot knows by name only, the plan runs and reaches the desired schema if and only if, besides the three conditions on the snapshots, no foreign key of such a table references a column that goes or a key that is not kept in a table that stays. |
| DiffUnmanaged.UnsparedGetsStuck | backend/src/untangled/schema/migrate.py:63-86 | A foreign key of such a table that is not spared makes the server refuse a statement of every plan, before the table is dropped. |
| DiffTheorems.GatedPlanPreserves | backend/src/untangled/schema/migrate.py:142-152 | When the gate lets a plan through without permission, the schema reached has lost nothing. |
| DiffTheorems.EmptyPlanExactly | backend/src/untangled/schema/diff.py:33-182 | The plan is empty and primary keys agree if and only if the two canonical forms are equal. |
| DiffTheorems.MigratedSchemaIsStable | backend/src/untangled/schema/migrate.py:142-183 | A migrated schema has the desired canonical form and re-diffs to nothing. |
| DiffWitness.CompositeKeyIsLost | backend/src/untangled/schema/ddl.py:119-134 | Concrete pair: a new table with a two-column primary key is created by a plan whose every statement succeeds, and has no primary key afterwards. |
| DiffWitness.ChangedKeyIsIgnored | backend/src/untangled/schema/diff.py:196-224 | Concrete pair: a primary key that differs on a shared table is never compared; a plan that runs leaves the old key, so none reaches the desired schema. |
| DiffWitness.RenamedKeyGetsStuck | backend/src/untangled/schema/diff.py:73-85 | Concrete pairs: renaming a unique index that a kept foreign key references leaves a plan with a statement the server refuses. |
| DiffWitness.HiddenKeyGetsStuck | backend/src/untangled/schema/migrate.py:63-86 | Concrete database: the snapshots satisfy all three conditions, yet a foreign key of a table known by name only makes the plan stop. |
| Serialize.TableDictOrderFree | backend/src/untangled/schema/serialize.py:31-48 | The canonical form of a table ignores the order of its columns, foreign keys, indexes and checks. |
| Serialize.CanonicalOrderFree | backend/src/untangled/schema/serialize.py:21-28 | The canonical form of a schema ignores the order of its tables and sequences and, within each table, of columns, foreign keys, indexes and checks. |
| Serialize.CanonicalFaithful | backend/src/untangled/schema/serialize.py:21-77 | Equal canonical forms mean equal schemas by name, sequence starts aside, and conversely. |
| Migrate.Database.ApplyPlan | backend/src/untangled/schema/migrate.py:152-183 | Statements run in order in one transaction: all of them take effect, or the catalog is as before. |
| Migrate.Database.Migrate | backend/src/untangled/schema/migrate.py:142-183 | From any catalog and any introspected snapshot: empty plans change nothing; a destructive plan without permission is refused with exactly its destructive operations; otherwise the plan is applied whole or rolled back. |
| Migrate.MigrationLandsExactly | backend/src/untangled/schema/migrate.py:63-183 | With permission, or nothing destructive, and no offending rows, a migration of a database known through its introspection reaches the desired schema if and only if the conditions of `DiffUnmanaged.PlanLandsOnDatabaseExactly` hold. |
| Migrate.UnforcedMigrationPreserves | backend/src/untangled/schema/migrate.py:142-152 | Without permission nothing is lost, whatever the outcome. |
| Migrate.RefusedMeansStuck | backend/src/untangled/schema/migrate.py:152-183 | A statement that fails part way means that the whole list could not have run. |
| Like.EscapeIsOnePass | backend/src/untangled/persistence/search.py:670-676 | The three sequential replaces equal one character-wise escape, although each sees the output of the one before. |
| Like.LiteralThen | backend/src/untangled/persistence/search.py:670-676 | Under LIKE with ESCAPE an escaped literal consumes exactly itself. |
| Like.PatternCorrect | backend/src/untangled/persistence/search.py:641-667 | For all strings, the generated pattern matches exactly when the value is a substring, prefix or suffix. |
| SearchTree.DecodedProper | backend/src/untangled/persistence/search.py:405-462 | A decoded request only produces trees with non-empty lists, and every column named in it is a searchable attribute. |
| SearchRequest.ReadableExactly | backend/src/untangled/persistence/search.py:405-667 | A request is decoded exactly when it is understood: the operator names, the allowed properties and the types each operator accepts are written out on the JSON. |
| SearchRequest.DecodedMeansRequest | backend/src/untangled/persistence/search.py:405-667 | On every row the decoded tree has the truth value that the request has by its operator names. |
| SearchRequest.SaysReadsOnly | backend/src/untangled/persistence/search.py:405-667 | Rows that agree on the searchable attributes are not told apart by any request. |
| SearchCompile.CompileBudget.CountNode | backend/src/untangled/persistence/search.py:151-172 | Every node counts against one total and every regexp node against a second one; the first excess is refused. |
| SearchCompile.CompilePredicate | backend/src/untangled/persistence/search.py:405-462 | The recursive compiler accepts a raw tree exactly when it is well formed, within depth, list length, node and regexp limits, with every leaf eligible; then the text and the appended parameters are those of the tree and both counters have moved by exactly its node and regexp counts. |
| SearchCompile.CompileChildren | backend/src/untangled/persistence/search.py:501-519 | Children share one parameter list and one budget, left to right. |
| SearchCompile.AcceptedIsPermitted | backend/src/untangled/persistence/search.py:405-519 | The limits met by the compiler are those of the request: nesting depth, list lengths, nodes and regexp nodes counted on the JSON. |
| SearchCompile.CompilePredicateRoot | backend/src/untangled/persistence/search.py:381-402 | Accepts exactly the requests that are understood and within the limits, both counted on the JSON; the text with its parameters then has the truth value that the request has on every row, with joined rows too when columns are qualified. A request with the right properties is never called structurally wrong. A missing predicate selects everything. |
| SearchCorrect.BindEmitted | backend/src/untangled/persistence/search.py:405-667 | Placeholders consumed left to right take exactly the parameters appended for them. |
| SearchCorrect.ParseEmitted | backend/src/untangled/persistence/search.py:479-542 | The rendered text re-parsed under NOT above AND above OR gives back the same expression, whatever follows it. |
| SearchCorrect.CompiledMeansTree | backend/src/untangled/persistence/search.py:381-667 | For every tree, row and null field the text in three-valued logic has the truth value of the tree. |
| SearchCorrect.CountAndSelectAgree | backend/src/untangled/persistence/search.py:224-236 | The unqualified text without joins and the qualified text beside any joined rows have the same truth value on every source row. |
| SearchCorrect.QualifierNeeded | backend/src/untangled/persistence/search.py:465-468 | Without the qualifier the condition becomes ambiguous exactly when a joined table has a column that it names. |
| SearchPages.ResolveProjection | backend/src/untangled/persistence/search.py:336-351 | The projection is `id` and then the first occurrence of each known attribute; any unknown name is an error. |
| SearchPages.ProjectionExactly | backend/src/untangled/persistence/search.py:336-351 | `id` comes first, then each requested attribute once, in the order of first mention. |
| SearchPages.ResolveSort | backend/src/untangled/persistence/search.py:354-378 | Caller keys in order, then the stability keys not already named. |
| SearchPages.IdAlwaysSorted | backend/src/untangled/persistence/search.py:374-378 | Whatever the caller sorts by, `id` is a key. |
| SearchPages.ResultOrder | backend/src/untangled/persistence/search.py:354-378 | Rows stand in the order of the first requested key on which they differ; rows that tie on all of them stand newest first, and equally new ones by descending `id`. |
| SearchPages.ResultUnique | backend/src/untangled/persistence/search.py:243-284 | Whatever total preorder compares values, ties included, any result the server may return is one and the same list, because `id` is among the keys. |
| SearchPages.JoinsKeepRow | backend/src/untangled/persistence/fk_enrichment.py:143-158 | However many joins on unique ids, a source row comes out exactly once. |
| SearchPages.IdentityIsReferenced | backend/src/untangled/persistence/fk_enrichment.py:150-158 | What stands beside a row is the referenced record, or nulls for a null or dangling reference. |
| SearchPages.CountEqualsEnrichedLength | backend/src/untangled/persistence/search.py:224-266 | The unjoined COUNT and the joined SELECT keep the same rows, each once. |
| SearchPages.WalkShowsRest | frontend/app/list/pagination.ts:65-71 | Pressing Next from any start shows every later row exactly once, in order. |
| SearchPages.WalkEndsOnLastPage | frontend/app/list/pagination.ts:53-71 | The walk ends on the page the Last button names exactly when it started on a page boundary. |
| SearchPages.PagingIsComplete | frontend/app/list/pagination.ts:53-71 | From the first page, Next shows each matching row once, in the one order, and ends on the last page. |
| SearchPages.ClampedPageIsLast | frontend/app/list/pagination.ts:143-148 | Re-fetching at the clamped offset shows the last rows. |
| SearchPages.PastLastPageExactly | frontend/app/list/pagination.ts:134-141 | The past-the-end test fires on empty pages and, beyond what its comment says, on starts inside the last page; on page boundaries it fires for empty pages only. |
| SearchPages.RefreshExactlyWhenWindowChanges | frontend/app/list/pagination.ts:84-98 | Changing the page size needs a request exactly when other rows would be shown. |
| SearchExecute.PrepareSearch | backend/src/untangled/persistence/search.py:186-276 | A request is refused as the client's fault only if it is invalid; an accepted one yields a COUNT and a SELECT of the same tree with the same parameters, the resolved columns, order and window. |
| SearchExecute.KnownExactly | backend/src/untangled/persistence/search.py:213-218 | Every searchable attribute is known, or `id` alone without read permission. |
| SearchExecute.IdOnlyRevealsIds | backend/src/untangled/persistence/search.py:203-236 | Without read permission a valid request shows `id` alone, names nothing else to sort by, joins nothing, and its predicate cannot tell two rows with one id apart. |
| SearchExecute.CountIsSelectLength | backend/src/untangled/persistence/search.py:215-266 | COUNT equals the length of the unpaged SELECT, enriched or not, and both are the rows on which the predicate is true. |
| SearchExecute.SearchAnswers | backend/src/untangled/persistence/search.py:268-311 | On a fixed table the items are a page of one list that the request alone determines: the rows on which the JSON request is true, in the requested order; the total is its length, and the page is full unless the list ends. |
| Enrichment.ResolveFkFields | backend/src/untangled/persistence/fk_enrichment.py:56-72 | The loop lists the projected foreign keys in definition order, then the audit columns. |
| Enrichment.FieldsAreTargets | backend/src/untangled/persistence/fk_enrichment.py:208-218 | The list of fields and the per-column lookup agree on every column and target. |
| Enrichment.TargetExactly | backend/src/untangled/persistence/fk_enrichment.py:208-218 | The audit columns refer to `user`, every other column to the class its attribute references. |
| Enrichment.JoinableExactly | backend/src/untangled/persistence/fk_enrichment.py:75-108 | No field has an error exactly when every projected reference has its class and `user` is the user class. |
| Enrichment.BuildEnrichedReadPlan | backend/src/untangled/persistence/fk_enrichment.py:75-165 | A plan exists exactly when no field has an error, which `Enrichment.JoinableExactly` says without it; then it has one join per field and one SELECT entry per column and identity part. |
| Enrichment.OutputsApart | backend/src/untangled/persistence/fk_enrichment.py:109-141 | No two SELECT entries fill one result column: the double underscore of the aliases cannot occur in attribute names. |
| Enrichment.MapEnrichedRow | backend/src/untangled/persistence/fk_enrichment.py:173-205 | The loop maps every projected column by the join recorded for it. |
| Enrichment.EnrichedItem | backend/src/untangled/persistence/fk_enrichment.py:75-205 | End to end: a plain or null column keeps its value; a foreign key becomes the identity of the referenced record with exactly its texts, or none when it does not exist. |
| SessionStore.SpliceOut | auth/src/sessions.ts:320-333 | The backward splice loop removes exactly the matching elements and keeps the order of the others. |
| SessionStore.MemorySessions.Rotate | auth/src/sessions.ts:263-319 | On any store with distinct ids and used tokens: rotated exactly when a session holds the presented token and neither expiry has come; expired exactly when one has; otherwise soft, hard or unknown by the recorded uses. The new row, its expiry, the recorded use, the removed chain and everything left alone are stated field by field. |
| SessionStore.MemorySessions.Invalidate | auth/src/sessions.ts:320-333 | Removes the used tokens and the row of one chain and nothing else, stated row by row. |
| SessionStore.MemorySessions.InvalidateAll | auth/src/change_password_apply.ts:215-226 | Removes every session and used token of one user and nothing else, stated row by row. |
| SessionStore.MemorySessions.IssueFirstRefresh | auth/src/change_password_apply.ts:202-214 | Gives a token to an existing session without one, and changes nothing otherwise. |
| SessionStore.RotationKeepsPromise | auth/src/sessions.ts:251-319 | The same promise for the rotation step of the runs. |
| SessionStore.FirstKeepsPromise | auth/src/change_password.ts:196-232 | A first refresh gives a token to the named session exactly when it has none, with the renewed expiry and its remaining seconds as the cookie age, and changes nothing else. |
| SessionRuns.RunIsGood | auth/src/sessions.ts:251-335 | In every run of logins, rotations, password changes, logouts and cleanups with fresh tokens: a live token is never among the used ones, no two sessions share one, a session with a token never outlives its absolute expiry, and every used token still has its session. |
| SessionTheorems.EveryRotationKeepsPromise | auth/src/sessions.ts:251-319 | In every run each rotation and each first refresh keeps its promise. |
| SessionTheorems.RotatedAtMostOnce | auth/src/sessions.ts:263-301 | A refresh token is exchanged at most once in any run. |
| SessionTheorems.AbsoluteExpiryFixed | auth/src/session_issue.ts:40-52 | No step ever moves the absolute expiry of a session, and refresh expiry stays within it. |
| SessionTheorems.FirstRefreshOnce | auth/src/change_password_apply.ts:202-214 | A session gets its first refresh token at most once, and never again when it was created with one. |
| SessionTheorems.RotatedIsAlive | auth/src/session_issue.ts:40-52 | A rotated session is never born expired, and the cookie lives exactly as many seconds as the stored token has left. |
| SessionTheorems.LoginStores | auth/src/session_issue.ts:9-38 | A login appends one row: absolute expiry after the total lifetime; refresh expiry after the shorter of refresh and total lifetime, or after the access lifetime when the password must change. |
| SessionTheorems.LoginAges | auth/src/session_issue.ts:9-38 | The cookie ages at login equal the stored remaining seconds; must-change sessions use the access lifetime and get no refresh cookie. |
| SessionTheorems.FirstRefreshAge | auth/src/change_password.ts:196-232 | The first refresh ignores the absolute expiry, so its cookie age matches the stored expiry if and only if the session had not expired. |
| SessionLate.AccessOutlivesSessionExactly | auth/src/session_issue.ts:9-38 | An access token of a must-change session outlives the session exactly when the access lifetime exceeds the total lifetime; no setting rules that out. |
| SessionLate.LateFirstRefreshIsUseless | auth/src/change_password.ts:196-232 | A first refresh token issued after the absolute expiry comes with a cookie of one second and a stored expiry in the past, and every later rotation of it is refused as expired. |
| SessionLate.LateFirstRefreshIsReachable | auth/src/change_password.ts:196-232 | Concrete run of the store: login with an access lifetime of 900 and a total lifetime of 300 seconds, password change at 600 with a live access token, and the useless token of the previous row. |
| SessionTheorems.ReplayAnswer | auth/src/sessions.ts:302-319 | While the chain stands and the reuse window lasts: a replay within the grace period is soft and changes nothing, a later one is hard and removes the whole chain; cleanups in between do not matter. |
| SessionTheorems.CleanupCompletesExactly | auth/src/session_cleanup.ts:11-21 | Cleanup deletes expired sessions if and only if none of them still has a used token inside its window: the foreign key makes the whole statement fail otherwise. |
| SessionTheorems.CleanupLeaves | auth/src/session_cleanup.ts:6-21 | A completed cleanup leaves exactly the unexpired sessions and the used tokens inside their window. |
| SessionTheorems.BlockedCleanupLeaves | auth/src/session_cleanup.ts:6-21 | A blocked cleanup keeps every session and still removes exactly the used tokens past their window. |
| SessionTheorems.OneChainBlocksCleanup | auth/src/session_cleanup.ts:11-21 | Concrete run: one session rotated shortly before it expired keeps another user's expired session in the table. |
| RefreshPipeline.RunRefresh | auth/src/refresh_pipeline.ts:74-254 | Store and reply of one refresh request for every combination of failing audit, signing, rotation and invalidation. |
| RefreshPipeline.RepliesExactly | auth/src/refresh_pipeline.ts:74-254 | Which reply, from the request, the tables and the failing calls alone: success, with a new access token exactly when the old one has ended, soft, hard, unavailable or internal error, and no other reply fits. |
| RefreshPipeline.NewTokenLiveExactly | auth/src/refresh_pipeline.ts:149-254 | The new token works afterwards exactly when the client received it, or when the invalidation after a failed audit or signature itself failed. |
| RefreshPipeline.NoAuditNoSession | auth/src/refresh_pipeline.ts:93-121 | With the audit sink down nobody gets a token or a plain refusal. The session named by the access token is gone afterwards, except after a soft reuse, which is not audited and changes nothing, and when the request failed before the store was asked. |
| RefreshPipeline.SuccessAges | auth/src/refresh_pipeline.ts:201-208 | The ages in a successful reply are what the stored token has left, at least one second. |
| SessionTxSafe.ReachableInv | auth/src/sessions.ts:100-249 | In every interleaving of the transactions' statements: row locks are exclusive, a locked row is the one that was read, minted tokens stay unique, used tokens keep their session. |
| SessionTxTheorems.RotatedAtMostOnce | auth/src/sessions.ts:144-208 | Each refresh token is exchanged by at most one committed rotation, however the transactions interleave or abort. |
| SessionTxTheorems.UsedMatchesLog | auth/src/sessions.ts:69-114 | Used tokens on record are exactly the committed rotations that no commit deleted, each with its session, and none of them is live. |
| SessionTxTheorems.ClosedStaysClosed | auth/src/sessions.ts:100-114 | Once a commit has removed a chain, no later commit rotates or issues a token of that session. |
| SessionTxTheorems.FirstOnce | auth/src/change_password_apply.ts:106-129 | First refresh is committed at most once per session, and never for one created with a token. |
| SessionTxTheorems.ExpiryFixed | auth/src/sessions.ts:177-200 | No interleaving moves a session's absolute expiry or owner, and the refresh expiry of a session with a token never exceeds it. |
| SessionTxTheorems.RotationIsExact | auth/src/sessions.ts:144-208 | Every committed rotation, in every interleaving: at the commit the row still held the presented token and had not expired; that row alone gets the new token and the renewed expiry, and the old token is recorded once with its window. |
| SessionTxTheorems.FirstIsExact | auth/src/change_password_apply.ts:106-129 | Every committed first refresh gives one session without a token the new token and the renewed expiry, and changes nothing else. |
| SessionTxTheorems.LookupDecides | auth/src/sessions.ts:203-219 | A token that no session holds is unknown unless it is recorded for this chain; then it is soft within the grace period and starts the deletion of the chain after it. |
| SessionTxScope.DeletionIsExact | auth/src/sessions.ts:100-114 | Every committed chain deletion, in every interleaving, removes sessions and used tokens of its target only, the named session if it is there, and leaves no used token of a removed session. |
| SessionTxTheorems.InsertNeverConflicts | auth/src/sessions.ts:144-176 | Holding the row lock, an unexpired rotation neither waits for nor violates the unique index on used tokens. |
| SessionTxTheorems.DeletionFailsExactly | auth/src/sessions.ts:100-114 | The second DELETE of a chain deletion fails on the foreign key exactly when a used token was missing from the first one's snapshot, and every such token was rotated after that snapshot. |
| SessionTxTheorems.LogoutCanLoseToRotation | auth/src/sessions.ts:231-247 | Concrete interleaving: a logout fails because a rotation commits between its two statements. |
| RateLimit.MapKeyRoundTrip | auth/src/rate_limit.ts:210-220 | Kind and key are read back from a map key even when the key holds tabs. |
| RateLimit.SettingsOfContext | auth/src/rate_limit.ts:167-186 | User contexts take the user threshold and period, address contexts the address ones; both delays and the lockout length are shared. |
| RateLimit.EvaluationExactly | auth/src/rate_limit.ts:84-154 | Answer, stored context and lockout start from threshold, period and delays, with stamps counted one, two and three periods back. |
| RateLimit.RecordedExactly | auth/src/rate_limit.ts:156-165 | A failure is appended to its context, or opens a context of its own unless the kibibytes are used up; the total grows by 64 bytes, and 256 more for a new context. |
| RateLimit.PurgeLeaves | auth/src/rate_limit.ts:288-305 | A purge removes a context exactly when all its stamps are older than three of its own periods and lockout and grace are over, and otherwise drops those stamps only. |
| RateLimit.MemoryRateLimit.EvalOne | auth/src/rate_limit.ts:322-340 | The answer and the stored context are those of the evaluation; the byte counter stays the sum of the estimates. |
| RateLimit.MemoryRateLimit.RecordOne | auth/src/rate_limit.ts:342-352 | A failure is added, unless it would open a new context with the budget used up; the byte counter stays exact. |
| RateLimit.MemoryRateLimit.ApplyPurge | auth/src/rate_limit.ts:288-305 | Every context is pruned and the expired ones are gone; the byte counter stays exact and the next purge may be scheduled. |
| RateLimit.MemoryRateLimit.Evaluate | auth/src/rate_limit.ts:370-386 | From the settings and the stored stamps alone: each context, at its own clock reading, by its own threshold and sample period, answers no delay, the first delay above one threshold in one period, the second above two in two, and a lockout above three in three outside lockout and grace; delays add up and either locks out. What is stored afterwards is stated too. |
| RateLimit.MemoryRateLimit.RecordFailure | auth/src/rate_limit.ts:387-394 | Both contexts are recorded, each at its own clock reading, and a purge is asked for exactly above four fifths of the budget when none is under way. |
| RateLimitRuns.PruningIsInvisible | auth/src/rate_limit.ts:49-165 | Over every run with fixed settings and a clock that does not go back, each evaluation answers as a limiter that keeps every admitted failure forever and deletes no context. |
| RateLimitRuns.LockoutTimeline | auth/src/rate_limit.ts:84-154 | A lockout started at t with length L: every evaluation before t + L is locked out, none from t + L to t + 2L is, none before t + 2L starts another, whatever purges and settings changes happen. |
| RateLimitRuns.StartNeedsFailures | auth/src/rate_limit.ts:113-129 | Every lockout start has more than three thresholds of admitted failures in the last three sample periods. |
| RateLimitRedis.CounterIsSum | auth/src/rate_limit_redis.ts:178-330 | In every interleaving of any number of clients the unwatched byte counter equals the sum of the estimates of the stored contexts. |
| RateLimitRedis.NoTornCommit | auth/src/rate_limit_redis.ts:72-115 | A commit that goes through was computed from one consistent state, which is still the stored one. |
| RateLimitRedis.CommitDecides | auth/src/rate_limit_redis.ts:178-230 | A commit goes through exactly when the watched keys are unchanged; a conflict writes nothing and starts over, and the eighth one fails. |
| RateLimitRedis.ComputeBySettings | auth/src/rate_limit_redis.ts:230-330 | What a client prepares to answer and to store follows from what it read, the clock and the settings of that moment, by the kind of its context. |
| RateLimitRedis.CommitsAreSequential | auth/src/rate_limit_redis.ts:178-330 | Every interleaving equals its committed operations one after the other through the in-memory functions, up to the order of failures, with the same answers. |
| RateLimitRedis.EvaluateReordered | auth/src/rate_limit_redis.ts:72-115 | Loading failures in score order changes no answer. |
| PermissionCache.FetchEffective | backend/src/untangled/rbac/store.py:113-135 | Refuses everything when some row has a cycle, else when some row is too deep; otherwise returns exactly the keys that some row carries, ascending and without repetition. |
| PermissionCache.EffectiveExactly | backend/src/untangled/rbac/store.py:113-135 | The effective set that the cache theorems speak of: refused by any cyclic or too deep row, otherwise the keys of all rows. |
| PermissionCache.FetchCached | auth/src/rbac/permissions.ts:98-146 | One undisturbed lookup: a well-formed entry with the current version answers and changes nothing, otherwise the database answers and the entry is replaced. |
| PermissionCache.ReturnedWasEffective | backend/src/untangled/rbac/cache.py:63-82 | Whatever readers of both services, mutators and Redis do, a returned set was effective at a version between the one the call read first and the current one. |
| PermissionCache.RevocationIsSeen | backend/src/untangled/rbac/store.py:95-110 | Once a mutation has taken a key from a user no lookup started afterwards returns it until it is given back. |
| PermissionCache.TagMayBeOlderThanKeys | backend/src/untangled/rbac/cache.py:70-82 | Concrete run: an entry can hold keys newer than its version tag. |
| PermissionTags.KeysAreNoOlderThanTag | backend/src/untangled/rbac/cache.py:63-82 | In every reachable system the keys of an entry were effective at a version from its tag on, the one at which the lookup that read the tag resolved them. |
| PermissionTags.TagHoldsItsKeysExactly | backend/src/untangled/rbac/cache.py:63-82 | An entry holds the keys of its tag if and only if the effective set was the same when its lookup resolved as when it read the version; in particular when no mutation in between changed it. |
| FriendlyIds.FormatRoundTrip | backend/src/untangled/mapping/types.py:78-83 | The number can be read back from the printed id, padding and overflow included, and the id is at least as long as the pad width. |
| FriendlyIds.FormatInjective | backend/src/untangled/mapping/types.py:78-83 | Different numbers never print alike, whatever the pad widths. |
| FriendlyIds.FormatExactly | backend/src/untangled/mapping/types.py:78-83 | The printed id is the one string that has the prefix and the number, reaches the pad width, and starts with no zero beyond it. |
| FriendlyIds.ResolveSequenceStarts | backend/src/untangled/schema/sequences.py:10-39 | The loop resolves exactly the sequences that ask for it and leaves the others alone. |
| FriendlyIds.ResolvedExactly | backend/src/untangled/schema/sequences.py:10-82 | A resolved start is above every stored number of the prefix, and 1 or one more than one of them; an explicit start is kept. |
| FriendlyIds.StartIsFreshExactly | backend/src/untangled/schema/sequences.py:10-39 | For every prefix, start, column and set of pad widths: no run issues a stored id if and only if no stored value prints a number from the start on in one of the widths. |
| FriendlyIds.StartAboveMaximumExactly | backend/src/untangled/schema/sequences.py:42-82 | Across all widths that condition holds if and only if the start lies above the largest stored number, or there is none. |
| FriendlyIds.AboveMaximumSuffices | backend/src/untangled/schema/sequences.py:42-82 | A start above the largest stored number is safe in every run. |
| FriendlyIds.NeverIssuedTwice | backend/src/untangled/mapping/types.py:78-83 | From any start and with any pad widths no id is issued twice. |
| FriendlyIds.AllocationsAreNew | backend/src/untangled/schema/sequences.py:42-82 | With a resolved start, over any run of creates, failed creates and deletions no allocated id equals a value the column held or an id allocated earlier, also when the table or column does not exist yet. |
| FriendlyIds.StartIsTight | backend/src/untangled/schema/sequences.py:42-82 | The start is 1 or one more than a number in use. |
| FriendlyIds.FixedStartMayCollide | backend/src/untangled/schema/sequences.py:19-23 | Concrete case of an unsafe explicit start: it is left unchanged and its first id is taken. |

## Left out

- SchemaDiff.DiffSchemas: table orders are those the dependency sort may return, so the contract names a set of plans rather than one list; every theorem about plans holds for all of them.
- DiffTheorems.PlanLandsExactly: a foreign key is not bound to one unique index, as it is in the server; an equal index may stand in, so dropping one of two identical unique indexes under a foreign key is accepted.
- DiffUnmanaged.PlanLandsOnDatabaseExactly: sequences that no class names are never introspected nor touched, and are not part of the database here; foreign keys are not bound to one index here either.
- CatalogLaws.RunKeepsConsistent: primary-key index names, and the implicit drop of an index with its column (modelled as a refusal; the planner drops such indexes first).
- RateLimit.MemoryRateLimit.Evaluate: other requests between its two contexts are covered for the single-context steps by the runs of `RateLimitRuns`, not in this contract.
- RateLimit.MemoryRateLimit.RecordFailure: as for `Evaluate`.
- SearchCompile.CompilePredicateRoot: a request with several faults may get either client error; only that a request with the right properties never gets the structural one is stated.
- RateLimitRedis.CommitsAreSequential: the byte count that admits a new context is read at any time before the commit, because the code does not watch it.
- PermissionCache.ReturnedWasEffective: entries written by anything but the two services are covered only when they are not well formed.
- Enrichment.EnrichedItem: the server's truncation of identifiers to 63 bytes is not modelled, so very long column names are outside the statement.
- Data-level failures of DDL are a parameter of `Migrate.Database.Migrate`; of them only required columns on populated tables are worked out (`PlanRows`), not failing casts or NULLs that a tightened column holds. Type compatibility of foreign keys is not modelled.
- Catalog introspection, restore points, version history, the system-user bootstrap and the required create defaults of `migrate`.
- YAML loading and validation, the Pydantic and Zod emitters.
- Statement rendering beyond the WHERE condition: SELECT lists, ORDER BY and LIMIT are modelled by what they select, not as text.
- Regular-expression semantics, collations, numeric coercion and the error an invalid pattern raises in the server.
- Deadlock detection, statement timeouts and connection loss appear only as aborted transactions; the user-row lock of a password change is not modelled, which allows more interleavings than the code does.
- The atomic runs have one store: password hashes, account locks and audit records of a password change are not part of it.
- Response padding times, HTTP, cookies, CSRF, JWT signing and verification, Argon2 and HMAC.
- The timer that drives the session cleanup: a cleanup may happen at any step of a run.
- The purge lock and the SCAN loop of the Redis limiter: purges of single contexts may happen at any time, by any client.
- Text encoding of Redis keys and numbers, expiry of the cache entries (covered by arbitrary loss), version numbers beyond 2^53.
- `would_create_role_cycle` stops at depth 16 and is exact only on shallow graphs.
- `bigint` overflow of friendly-id numbers, and prefixes that contain regular-expression characters.
