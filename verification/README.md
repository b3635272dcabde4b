# CrabCache control plane: a verified model

CrabCache is an LLM gateway. Its control plane, `crab-admin`, keeps three replicas of the client keys in
agreement (Admin memory, PostgreSQL, the Gateway) and maintains several incrementally updated statistics,
caches, pools and log directories. This project models that logic in Dafny and proves what it keeps, over every
input, every run and every interleaving.

| file | models |
|---|---|
| `ClientKeys.dfy` | merging key metadata, and the hydrate loop against its specification |
| `KeyRestore.dfy` | reconcile, sync and id migration as relations between worlds; convergence |
| `KeyBudgets.dfy` | what runs of reconcile, sync and Gateway loss keep of each key's budget |
| `StoredBudgets.dfy` | what whole passes keep of the stored budgets |
| `RestorePass.dfy` | the composed restore pass, late flushes, the second pass |
| `PassProgress.dfy` | when a pass can go through without failures |
| `DriftCheck.dfy`, `DriftLoop.dfy`, `GatewayUptime.dfy` | the count-based drift check, its quiescence, and the loop that runs it |
| `MigrationRuns.dfy` | id migrations interleaved with crashes, flushes and Gateway loss |
| `AdminState.dfy` | the Admin process as a class, each loop tied to the relation it implements |
| `DuplicatePruning.dfy` | the key list and the revocation of repeated names |
| `PeakHours.dfy` | watermark aggregation of peak hours |
| `MetricsRing.dfy`, `BucketedStats.dfy` | the counter ring, its replay, and charts over it |
| `LiveBuckets.dfy`, `LiveMetrics.dfy` | live-metrics buckets, series and summaries |
| `KeyUsage.dfy`, `DomainUsage.dfy` | key usage by watermark, domain usage across Gateway restarts |
| `TracePaging.dfy` | keyset pagination of the trace log |
| `LogRetention.dfy` | the four-stage retention pipeline |
| `AccountPool.dfy`, `CodexPool.dfy` | building the Codex key pool from credentials |
| `FetchCache.dfy` | the double-checked fetch cache with concurrent callers |
| `Common.dfy`, `StringOrder.dfy`, `Sums.dfy` | shared vocabulary |

## How it is modelled

Code that changes state in place is a class or a method with loops, and each method's postcondition ties it to a
specification function or relation; the theorems are about those. Concurrent maps are walked in any order;
which remote calls fail is an input of every method and arbitrary in the relations; clocks and decoded claims are
parameters, and `f64` is `real`.

The Gateway enters through its observable contract: `list_keys` exposes full, distinct, non-empty tokens under
distinct ids (`GatewayWellFormed`); `create_key` keeps the supplied token, refuses a token it holds or one that is
blank, longer than 512 characters or has control characters, and gives an id used nowhere else;
`put_domain_usage` replaces all counters. The budget theorems ask one thing more of the start (`Compatible` in
`KeyBudgets.dfy`): an Admin entry under a Gateway id holds that key's token, or no token while no other entry holds
it. Every restore pass ends there (`AgreementIsConsistent`), and it cannot be dropped: all
runs keep budgets and unique tokens exactly when the start is compatible (`EveryRunKeepsExactly`), and so does a sync
step for its key (`SyncStepKeepsExactly`). PostgreSQL tables are maps and sequences with the conflict rule of each
statement.

## Where the code does not do what is intended

- Cursor paging skips the row its cursor is taken from (`CompleteExactly`, `MissedRow`); a cursor from the last
  returned row would be complete (`LastRowCursorIsComplete`).
- A restore pass leaves a token off the Gateway when its row sits under an id the Gateway uses for another token, and
  the drift check falls quiet all the same (`AlwaysReachedExactly`, `QuietWhileMissing`, `StrangeRowIsMissed`). Ids the
  protocol hands out stand for one token for life (`BindingKept`), so only rows from outside it get there; for bound
  ids every token is reached (`PassReachesBound`).
- The drift loop remembers the uptime before it asks for the listing, so a tick that sees a restart and gets no listing
  forgets it; where counts happen to match, a lost key stays lost (`ForgottenRestart`).
- An id migration deletes the old row before it writes the new one, and takes the new id from a listing or an answer
  that may be stale. A Gateway loss inside that window, or already after the listing and before the move, followed
  by an Admin crash, leaves the token in neither place (`CoveredExactly`). The restarted Admin still has it in its
  state file; it is gone for good once a hydrate finds other rows and replaces memory and file (`ForgetsExactly`,
  `RestartInWindowLoses`, `StaleListingLoses`).
- Peak-hours rows are upserted one by one; a pass cut short can advance the watermark past rows that are then never
  written (`CutShortRepaired`, `EarlyWatermarkHidesRows`). A watermark that cannot be read starts the pass at 0, which
  spoils an hour the load cut (`UnreadWatermarkSpoils`).
- Peak hours are aggregated from the newest 100,000 entries only: a first pass over a longer log is never exact
  (`LongFirstLoadMisses`), and an hour that fills the load stops counting (`BusyHourStops`).
- The tick that detects a Gateway restart persists the reading taken before the restore, so PostgreSQL can drop in
  that tick and is back with the next completed one (`RestoringTickKeepsExactly`, `RestoringTickCanDrop`). A tick that
  runs between the restart and the uptime probe that shows it makes the drop permanent (`StaleProbeLosesRows`).
- Usage entries that arrive no newer than the watermark, or that a load leaves unread, are not counted
  (`TicksCountAllExactly`, `AnyLoadsCountExactly`). The watermark is not stored, so the first tick after an Admin
  restart counts the last two minutes again and drops older arrivals (`RestartCountsExactly`). Merging two
  metadata rows weakens tokens = input + output (`MergeWeakensBalance`).
- A budget of 500,000 or more can outrank a dashboard-created key in pruning (`DashboardKeyRevokedExactly`,
  `LargerBudgetOutranks`).
- The SQLite metrics store replaces rows while PostgreSQL keeps the first write (`ReplacingStoreReplays`).
- Entries stamped later than the bucket being filled are in the live maps and in `latest`, not in the chart or the
  summary (`AggregateLiveMetrics`).
- Series keys join their parts with `|` unescaped, so a model name or key id that contains it can put two models into
  one series (`BarredSeriesMerge`); without it a series holds entries alike in every dimension (`SameSeriesExactly`).
- Retention's rule "starts with the base name" also matches another log whose name extends it, which is then deleted
  while it is written (`SafeExactlyWhenApart`, `ExtendedNameIsDeleted`); the default layout is safe.
- An account claimed as the word default in outer white space is usable, and whether it stays so at a second look
  depends on its case; a merge right after a rebuild can then add a credential of an account the pool has
  (`MergeAfterRebuild`, `SpacedDefaultMerges`).

## Model

| member | source | states |
|---|---|---|
| ClientKeys.MergeAssociative | crates/crab-admin/src/state.rs:1078-1129 | merging is associative in every field |
| ClientKeys.MergeIdempotent | crates/crab-admin/src/state.rs:1078-1129 | merging a record with itself changes nothing |
| ClientKeys.MergeAllSplits | crates/crab-admin/src/state.rs:1063-1129 | a token's rows may be cut anywhere and the halves merged separately |
| ClientKeys.MergeAllCounters | crates/crab-admin/src/state.rs:1078-1129 | usage counters and the monthly limit end as the maximum over the group |
| ClientKeys.MergeAllSettings | crates/crab-admin/src/state.rs:1078-1129 | name, token, rpm limit, concurrency, expiry, model limits and month end as the last value that was set |
| ClientKeys.MergeAllRest | crates/crab-admin/src/state.rs:1078-1129 | id is the last row's, the flags are disjunctions, the quota is the first non-negative one |
| ClientKeys.HydratedCorrect | crates/crab-admin/src/state.rs:850-856 | the hydrate loop gives, for each non-empty token, one entry that is the merge of its rows in order, under the last row's id, and every other row unchanged |
| ClientKeys.HydrationDetermined | crates/crab-admin/src/state.rs:850-856 | that specification has exactly one solution |
| ClientKeys.HydrationWellFormed | crates/crab-admin/src/state.rs:850-856 | each entry is filed under its own id, no token twice, no token dropped or invented |
| KeyRestore.ReconcileReaches | crates/crab-admin/src/state.rs:967-1049 | after a reconcile without failures the Gateway kept every key, gained only keys made of Admin entries (name, rate modulo 2^32, concurrency), and holds all tokens exactly when no Admin entry sits under a Gateway id with a token the Gateway lacks |
| KeyRestore.SyncStepEffect | crates/crab-admin/src/state.rs:910-964 | one listing entry changes only the entry under its id, which then matches it, and at most one entry that held its token |
| KeyRestore.SyncAgrees | crates/crab-admin/src/state.rs:910-964 | after a sync Admin and Gateway hold the same tokens under the same ids and settings |
| KeyRestore.SyncAdopts | crates/crab-admin/src/state.rs:925-950 | a Gateway key Admin knows neither by id nor by token ends without budget, usage or restriction |
| KeyRestore.ReconcileThenSyncConverges | crates/crab-admin/src/state.rs:967-1049 | reconcile then sync agree on every token from any unique-token start, with the exact condition for all tokens being on the Gateway, and restore nothing when nothing was missing |
| KeyRestore.AgreementIsStable | crates/crab-admin/src/state.rs:910-1049 | from agreement, reconcile and sync change nothing in any replica |
| KeyBudgets.EventKeeps | crates/crab-admin/src/state.rs:909-1049 | one reconcile, sync or Gateway loss, with any failures, keeps every token's budget and, without database faults, the mirror in PostgreSQL and every row's token, budget and flag |
| KeyBudgets.RunKeepsBudgets | crates/crab-admin/src/state.rs:909-1049 | any sequence of these keeps, for every token Admin holds, all fields but id, name, rpm limit, concurrency and a missing token, and without database faults all of that in PostgreSQL |
| KeyBudgets.MoveKeepsAll | crates/crab-admin/src/state.rs:1168-1212 | an id migration keeps the token's budget |
| KeyBudgets.MigrationStoresBudget | crates/crab-admin/src/state.rs:1168-1212 | a migration whose write goes through stores limit, usage, quota, expiry, models, month, flag and settings under the new id |
| KeyBudgets.SyncStepKeepsExactly | crates/crab-admin/src/state.rs:910-964 | one listing entry keeps every budget and unique tokens if and only if its id is compatible |
| KeyBudgets.EveryRunKeepsExactly | crates/crab-admin/src/state.rs:909-1049 | all runs of these keep every budget and unique tokens if and only if the start is compatible |
| KeyBudgets.AgreementIsConsistent | crates/crab-admin/src/control_plane_restore.rs:8-25 | where a pass ends, the budget theorems start |
| RestorePass.HydrateEffect | crates/crab-admin/src/state.rs:833-871 | hydrating, whichever duplicate row is removed and whatever fails, gives unique tokens, exactly those of PostgreSQL |
| RestorePass.PassConverges | crates/crab-admin/src/control_plane_restore.rs:8-25 | one pass from any rows ends in agreement, the Gateway loses nothing, each key it gains has the name, rate and concurrency of its token's merged rows, and nothing is restored when nothing is missing |
| RestorePass.PassReaches | crates/crab-admin/src/control_plane_restore.rs:8-25 | every PostgreSQL token is on the Gateway after a pass when no row sits under a Gateway id with a token the Gateway does not know |
| RestorePass.PassReachesExactly | crates/crab-admin/src/control_plane_restore.rs:8-25 | for rows without repeated tokens, if and only if |
| RestorePass.PassReachesBound | crates/crab-admin/src/control_plane_restore.rs:8-25 | always, when every id stands for one token |
| RestorePass.SettledPassIsQuiet | crates/crab-admin/src/control_plane_restore.rs:8-25 | a pass restores nothing when each row's token or id is on the Gateway |
| RestorePass.SecondPassIsQuiet | crates/crab-admin/src/control_plane_restore.rs:8-25 | after a pass over such rows, even with faults and a late flush that re-inserts old rows, the next pass restores 0 keys and changes no id or token |
| RestorePass.AgreementFixesTable | crates/crab-admin/src/state.rs:910-964 | agreement with one Gateway determines every token's id |
| RestorePass.HydratedEntry | crates/crab-admin/src/state.rs:833-871 | each hydrated entry is the merge of its token's rows, flagged exactly if a row was or its id is audited |
| StoredBudgets.PassLoadsBudgets | crates/crab-admin/src/control_plane_restore.rs:8-25 | whatever fails, after a pass Admin holds every stored token with the merged budget of its rows |
| StoredBudgets.CleanPassStores | crates/crab-admin/src/control_plane_restore.rs:8-25 | without faults PostgreSQL then stores every token with the budget of one of its rows, Admin holds just what is stored, and the next pass may start |
| StoredBudgets.PassesKeepBudgets | crates/crab-admin/src/control_plane_restore.rs:8-25 | any number of passes without faults, hydrates included and Gateway losses in between, lose no stored token and no stored budget |
| StoredBudgets.EachBudgetKept | crates/crab-admin/src/control_plane_restore.rs:8-25 | for rows without repeated tokens that is each row's own budget |
| PassProgress.CleanReconcileExactly | crates/crab-admin/src/state.rs:967-1049 | a reconcile can go through, in any order, if and only if every key the Gateway lacks has a token it accepts |
| PassProgress.HydratePossible | crates/crab-admin/src/state.rs:833-871 | hydrating can go through whenever PostgreSQL has a row |
| PassProgress.CleanPassPossible | crates/crab-admin/src/control_plane_restore.rs:8-25 | from any rows whose tokens the Gateway holds or accepts a pass without failures exists, and ends in agreement |
| PassProgress.AlwaysReachedExactly | crates/crab-admin/src/control_plane_restore.rs:8-25 | from any rows, repeated tokens included, all clean passes reach every token if and only if no row sits under a Gateway id with an unknown token |
| PassProgress.StrangeRowIsMissed | crates/crab-admin/src/state.rs:985-991 | a row under an id the Gateway uses for another token: clean passes exist, each misses it, and the drift check is quiet |
| DriftCheck.QuietMeansEqual | crates/crab-admin/src/client_keys_reconcile_sync.rs:46-95 | if the Gateway's tokens are among Admin's, an unflagged tick means the two sets are equal |
| DriftCheck.AgreementIsQuiet | crates/crab-admin/src/client_keys_reconcile_sync.rs:19-25 | in agreement the check is flagged exactly on a restart |
| DriftCheck.StoredDriftIsFlagged | crates/crab-admin/src/client_keys_reconcile_sync.rs:66-84 | more stored keys with a visible token than Gateway keys are always flagged |
| DriftCheck.HydrateOfUniqueRows | crates/crab-admin/src/state.rs:850-856 | hydrating rows without repeated tokens gives the table back |
| DriftCheck.CleanPassIsQuiet | crates/crab-admin/src/client_keys_reconcile_sync.rs:46-95 | after a pass without failures the check is flagged exactly on a restart |
| DriftCheck.QuietWhileMissing | crates/crab-admin/src/client_keys_reconcile_sync.rs:46-95 | it is as quiet when the pass left a token off the Gateway, which for unique rows is so exactly when one sits under a Gateway id with an unknown token |
| DriftCheck.CleanSecondPassIsQuiet | crates/crab-admin/src/control_plane_restore.rs:8-25 | without database faults the second pass restores nothing whatever ids the rows share with the Gateway |
| DriftCheck.CleanPassMirrors | crates/crab-admin/src/control_plane_restore.rs:8-25 | with compatible ids PostgreSQL then holds only ids and tokens Admin holds, each with the same budget and flag |
| DriftCheck.SettledStaysQuiet | crates/crab-admin/src/client_keys_reconcile_sync.rs:46-95 | any number of ticks without a restart then leaves all three replicas as they are |
| DriftCheck.DriftIsSeen | crates/crab-admin/src/client_keys_reconcile_sync.rs:46-95 | a tick that gets to compare counts runs a pass after a restart, and whenever the Gateway lacks one of Admin's tokens and has no others |
| DriftCheck.ForgottenRestart | crates/crab-admin/src/client_keys_reconcile_sync.rs:54-62 | a tick that sees a restart and gets no listing forgets it; where counts match, a lost key then stays lost through any number of ticks |
| DriftLoop.ReconcileLoop.ReconcileOnce | crates/crab-admin/src/client_keys_reconcile_sync.rs:46-95 | a tick remembers the uptime exactly when the Gateway is ready, runs a pass exactly when counts are compared and something is wrong, and with the Gateway up that pass ends in agreement |
| MigrationRuns.BindingKept | crates/crab-admin/src/state.rs:991-1047 | in every interleaving an id always stands for one token, in all replicas, the state file, tasks and pending flushes |
| MigrationRuns.StepCovers | crates/crab-admin/src/state.rs:1190-1212 | a step keeps every stored token in PostgreSQL or on the Gateway exactly when it is not one of the losing steps |
| MigrationRuns.CoveredExactly | crates/crab-admin/src/state.rs:1140-1212 | a whole run never leaves a token uncovered if and only if no step of it is a losing one |
| MigrationRuns.NoTokenLost | crates/crab-admin/src/state.rs:967-1049 | with Admin crashing anywhere, no token is lost as long as the Gateway keeps each token from when Admin hears of it in a listing or answer until the old row is deleted, and whenever PostgreSQL lacks it |
| MigrationRuns.StartIsCovered | crates/crab-admin/src/state.rs:833-871 | a freshly started state meets what the run theorems ask |
| MigrationRuns.ForgetsExactly | crates/crab-admin/src/state.rs:614-620 | memory forgets a token if and only if a hydrate finds no row of it or a crash finds it not in the state file |
| MigrationRuns.RestartInWindowLoses | crates/crab-admin/src/state.rs:1190-1212 | a Gateway loss between the delete and the upsert, then a crash and a hydrate from another key's row, leaves a token nowhere at all |
| MigrationRuns.StaleListingLoses | crates/crab-admin/src/state.rs:967-1003 | so does a loss after the listing, with the row still there and no migration begun |
| MigrationRuns.MisfiledIsReachable | crates/crab-admin/src/state.rs:967-984 | one listing leads from a start state to where those two runs begin |
| AdminState.AppState.InsertDedupedByToken | crates/crab-admin/src/state.rs:1063-1076 | the in-place insert is the specified merge under the incoming id |
| AdminState.AppState.InsertRows | crates/crab-admin/src/state.rs:850-856 | the loop over rows builds the specified hydration |
| AdminState.AppState.Dedupe | crates/crab-admin/src/pg.rs:1263-1284 | one row per non-empty token remains, all others are kept; nothing changes on failure |
| AdminState.AppState.MigrateId | crates/crab-admin/src/state.rs:1168-1212 | the entry moves in memory and, as far as delete and upsert are answered, in PostgreSQL, with its whole budget |
| AdminState.AppState.ReconcileClientKeys | crates/crab-admin/src/state.rs:967-1049 | the loop is a reconcile run over the snapshot and reports the keys restored; on the Gateway are exactly the listed tokens and the missing ones whose call arrived; nothing happens when the listing fails |
| AdminState.AppState.SyncFromGateway | crates/crab-admin/src/state.rs:910-964 | the loop is a sync run over the listing; nothing happens when the listing fails |
| AdminState.AppState.Backfill | crates/crab-admin/src/keys_cleanup.rs:107-130 | audited keys are flagged in memory, and in PostgreSQL exactly those whose call is answered |
| AdminState.AppState.RestoreControlPlane | crates/crab-admin/src/control_plane_restore.rs:8-25 | what each stage does follows from the network and the replicas; with the Gateway up it ends in agreement with every token reached (for known shared ids), with PostgreSQL up too every stored budget is kept |
| AdminState.NoFailureExactly | crates/crab-admin/src/state.rs:967-1049 | no entry fails if and only if every missing key has an acceptable token and its call is delivered and answered |
| AdminState.HealthyPass | crates/crab-admin/src/control_plane_restore.rs:8-25 | a pass with the Gateway up, from rows it can accept, ends in agreement, loses nothing and reaches every token |
| DuplicatePruning.BuildApiKeys | crates/crab-admin/src/keys_cleanup.rs:162-207 | the list holds each Gateway key and each entry unknown to the Gateway once, under distinct ids |
| DuplicatePruning.GatewayKeyListed | crates/crab-admin/src/keys_cleanup.rs:162-207 | a Gateway key is listed with its id and name and the budget and origin Admin has under that id |
| DuplicatePruning.PendingKeyListed | crates/crab-admin/src/keys_cleanup.rs:162-207 | an entry unknown to the Gateway is listed as pending with its name, token, budget and origin |
| DuplicatePruning.SortGroup | crates/crab-admin/src/keys_cleanup.rs:228-232 | the group is permuted into score order, smaller ids first among equals |
| DuplicatePruning.Decide | crates/crab-admin/src/keys_cleanup.rs:216-251 | of each repeated name the best key is kept and every other revoked, each once |
| DuplicatePruning.KeptAndRevokedPartition | crates/crab-admin/src/keys_cleanup.rs:224-251 | a key of a repeated name is kept or revoked, never both, and one key of the name is kept |
| DuplicatePruning.PruneEndsRepeats | crates/crab-admin/src/keys_cleanup.rs:209-279 | after all revocations no name repeats and no hidden entry comes to light |
| DuplicatePruning.NothingLeftToPrune | crates/crab-admin/src/keys_cleanup.rs:224-227 | a list without repeated names has nothing to keep or revoke |
| DuplicatePruning.SecondPruneIsIdle | crates/crab-admin/src/keys_cleanup.rs:209-279 | a second prune revokes nothing, whatever the audit log says by then |
| DuplicatePruning.AgreementIsSingleHome | crates/crab-admin/src/control_plane_restore.rs:8-25 | the state a restore pass leaves meets what pruning asks |
| DuplicatePruning.DashboardKeyRevokedExactly | crates/crab-admin/src/keys_cleanup.rs:132-147 | among listed keys a dashboard-created key is revoked if and only if a rival without the flag outbids it in audit and budget by more than 1,000,000, or ties with a smaller id |
| DuplicatePruning.DashboardKeyKept | crates/crab-admin/src/keys_cleanup.rs:132-147 | so budgets below 500,000 never cost it its place, and 500,000 only to an audited rival with a smaller id when the key is unaudited and has no budget |
| DuplicatePruning.LargerBudgetOutranks | crates/crab-admin/src/keys_cleanup.rs:132-147 | from 500,000 on every budget revokes a dashboard-created key in some listed state that a restore pass could have left |
| DuplicatePruning.RevokeAll | crates/crab-admin/src/keys_cleanup.rs:253-272 | revoked ids leave memory always, the Gateway and PostgreSQL exactly where their call is answered |
| DuplicatePruning.PruneDuplicateKeys | crates/crab-admin/src/keys_cleanup.rs:209-279 | decisions are as specified; a dry run changes nothing, a run whose calls are answered exactly the revoked ids |
| PeakHours.AggregateEntries | crates/crab-admin/src/peak_hours_aggregator.rs:34-58 | the loop is the group-by of count, input and output per model and hour |
| PeakHours.GroupByCut | crates/crab-admin/src/peak_hours_aggregator.rs:34-58 | from an hour-aligned start the group-by is the full one restricted to those hours |
| PeakHours.PassExact | crates/crab-admin/src/peak_hours_aggregator.rs:61-95 | a completed pass equals the full group-by exactly when the table was right below the look-back |
| PeakHours.AppendThenPass | crates/crab-admin/src/peak_hours_aggregator.rs:61-95 | after new entries a pass is exact if and only if none is older than the watermark minus two hours |
| PeakHours.PassFromExact | crates/crab-admin/src/peak_hours_aggregator.rs:61-95 | from any hour-aligned start, over what the load returned, a pass is exact if and only if no new entry is older and the load cut no row the pass writes or the batch adds to |
| PeakHours.PassOverLoadExact | crates/crab-admin/src/trace_log.rs:592-613 | the same from the look-back |
| PeakHours.UnreadWatermarkSpoils | crates/crab-admin/src/peak_hours_aggregator.rs:71-73 | with the watermark unread a pass spoils a right table if the load cut an hour it writes |
| PeakHours.IncrementalIsFull | crates/crab-admin/src/peak_hours_aggregator.rs:61-95 | for every run of batches and loads, with failing loads and watermark reads, the table is after each pass the group-by of all logged at the last load, if and only if each pass meets that condition |
| PeakHours.SmallLoadsAreSound | crates/crab-admin/src/trace_log.rs:592-613 | on-time entries and at most 100,000 recent ones meet it |
| PeakHours.LongFirstLoadMisses | crates/crab-admin/src/trace_log.rs:592-613 | a first pass over a log longer than the load is never exact |
| PeakHours.BusyHourStops | crates/crab-admin/src/trace_log.rs:592-613 | an hour that fills the load is written again with 100,000 requests, whatever the table and the log, short by those the load cut |
| PeakHours.CutShortRepaired | crates/crab-admin/src/pg.rs:3104-3129 | after an upsert loop that stopped midway the next pass is exact if and only if every unwritten row is within the look-back or was right already |
| PeakHours.FrozenBelow | crates/crab-admin/src/pg.rs:3173-3183 | through any later passes that read the watermark, completed or cut short, rows below the look-back never change |
| PeakHours.EarlyWatermarkHidesRows | crates/crab-admin/src/pg.rs:3104-3129 | a written hour more than two hours past an unwritten one leaves that row as it was through every later run that reads the watermark |
| PeakHours.LoadedIsEnough | crates/crab-admin/src/trace_log.rs:592-613 | the group-by of the load is that of the log if and only if at most 100,000 entries are recent |
| PeakHours.PeakHoursTable.ReadWatermark | crates/crab-admin/src/pg.rs:3173-3183 | the watermark is the largest hour stored |
| PeakHours.PeakHoursTable.AggregateOnce | crates/crab-admin/src/peak_hours_aggregator.rs:61-95 | one pass leaves the specified table, completed exactly when no upsert fails, or the part of it written before; it starts at 0 exactly when the watermark cannot be read and does nothing when the load fails |
| MetricsRing.MetricsHistory.Append | crates/crab-admin/src/metrics_history.rs:121-145 | after any appends the ring is the last 1500 accepted samples no older than 25 hours before the newest |
| MetricsRing.MetricsHistory.Trim | crates/crab-admin/src/metrics_history.rs:131-145 | trimming is the batch trim |
| MetricsRing.AcceptedIncreasing | crates/crab-admin/src/metrics_history.rs:121-130 | accepted samples are strictly increasing in time |
| MetricsRing.AcceptedExactly | crates/crab-admin/src/metrics_history.rs:121-130 | a sample is accepted if and only if it is newer than everything offered before |
| MetricsRing.BatchMeaning | crates/crab-admin/src/metrics_history.rs:131-145 | the ring is a suffix of what was accepted, at most 1500 samples and 25 hours, and nothing within both limits is dropped |
| MetricsRing.BatchStep | crates/crab-admin/src/metrics_history.rs:121-145 | trimming after each sample is trimming once at the end |
| MetricsRing.MetricsHistory.Replay | crates/crab-admin/src/main.rs:274-289 | replaying rows gives the batch trim of the rows |
| MetricsRing.RestartKeepsRing | crates/crab-admin/src/pg.rs:1893-1922 | with a non-decreasing clock, replaying first-write rows gives exactly the live ring restricted to the load cutoff |
| MetricsRing.ReplacingStoreReplays | crates/crab-admin/src/metrics_store.rs:75-95 | a store that replaces replays the same rows if and only if all rewrites of a second agree |
| BucketedStats.PaddedKeys | crates/crab-admin/src/metrics_history.rs:435-441 | the padded keys are the given number of consecutive keys ending at now's |
| BucketedStats.KeyMonotone | crates/crab-admin/src/metrics_history.rs:378-397 | bucket keys, calendar months included, never decrease with time |
| BucketedStats.KeySpanExactly | crates/crab-admin/src/metrics_history.rs:378-397 | a sample has a key if and only if it lies between the start of that five minutes, hour, day, week or calendar month and the next |
| BucketedStats.GroupIsRun | crates/crab-admin/src/metrics_history.rs:314-330 | each bucket's samples are a contiguous run of the ring |
| BucketedStats.BuildWindowedStats | crates/crab-admin/src/metrics_history.rs:314-346 | one point per padded key, from the window's samples of that key |
| BucketedStats.BucketsNeverOverCount | crates/crab-admin/src/metrics_history.rs:457-501 | for any non-decreasing counter and ascending keys the bucket deltas sum to at most last minus first |
| BucketedStats.ChartNeverOverCounts | crates/crab-admin/src/metrics_history.rs:314-346 | the requests, the hits and the tokens of a windowed chart each sum to at most last minus first over the window's samples |
| BucketedStats.PointIsGrowth | crates/crab-admin/src/metrics_history.rs:457-501 | with growing counters a point holds the growth of requests, hits and tokens of its bucket |
| BucketedStats.RatesAreShares | crates/crab-admin/src/metrics_history.rs:457-501 | each tier's rate is that tier's share of the bucket's requests |
| BucketedStats.RatesAddUp | crates/crab-admin/src/metrics_history.rs:457-501 | a bucket's tier rates add up to its hit rate, which lies between 0 and 1 |
| LiveMetrics.Clamp | crates/crab-admin/src/live_metrics.rs:13-17 | a parameter ends within its bounds and is unchanged if it was |
| LiveMetrics.KeyedByDimensions | crates/crab-admin/src/live_metrics.rs:20-57 | an entry gets a group key if and only if some requested dimension is recognised |
| LiveMetrics.PartAlike | crates/crab-admin/src/live_metrics.rs:20-57 | two entries get the same part for a dimension if and only if they are alike in it, missing values having a stand-in |
| LiveMetrics.SameSeriesExactly | crates/crab-admin/src/live_metrics.rs:20-57 | entries alike in all dimensions share a series, and without the separator in their values only they do |
| LiveMetrics.BarredSeriesMerge | crates/crab-admin/src/live_metrics.rs:52-57 | with the separator in a model name two models end up in one series |
| LiveMetrics.Collect | crates/crab-admin/src/live_metrics.rs:95-141 | one pass leaves, per bucket and per group and bucket, the fold of its entries, and the first of the latest entries |
| LiveMetrics.ShownIsBetween | crates/crab-admin/src/live_metrics.rs:84-152 | the buckets drawn cover exactly the matching entries from the start to the end of the current bucket |
| LiveMetrics.ShownExactly | crates/crab-admin/src/live_metrics.rs:95-110 | an entry is shown as often as it was logged unless consumer, key, session or time leave it out |
| LiveMetrics.WindowGrouped | crates/crab-admin/src/live_metrics.rs:20-57 | grouping leaves no entry out, or gives no series at all |
| LiveMetrics.SeriesPartitionExactly | crates/crab-admin/src/live_metrics.rs:124-140 | bucket by bucket the series before the cut add up to the global bucket if and only if entries get group keys or the bucket is empty |
| LiveMetrics.AggregateLiveMetrics | crates/crab-admin/src/live_metrics.rs:70-195 | the summary gives the counts, sums and sample means of exactly the entries shown, each series those of its group, and the 20 busiest groups are returned |
| LiveBuckets.FoldSamples | crates/crab-admin/src/live_metrics.rs:197-273 | accumulated sums and counts are those of the individual samples |
| LiveBuckets.FoldCounts | crates/crab-admin/src/live_metrics.rs:197-273 | accumulated requests, tokens and hits are those of the entries |
| LiveBuckets.ContributionRestores | crates/crab-admin/src/live_metrics.rs:336-388 | weighting a bucket's averages by its sample counts gives its sums back |
| LiveBuckets.ChartAddsUp | crates/crab-admin/src/live_metrics.rs:143-152 | summed over the buckets drawn, everything equals the fold over the stretch |
| LiveBuckets.Summarize | crates/crab-admin/src/live_metrics.rs:456-522 | the summing loop gives the ratios of the weighted sums |
| LiveBuckets.GroupsPartition | crates/crab-admin/src/live_metrics.rs:131-140 | totals of all groups add up to the totals of the entries |
| LiveBuckets.SeriesPartitionBuckets | crates/crab-admin/src/live_metrics.rs:131-140 | the same for each bucket of the maps the loop fills |
| LiveBuckets.RequestsCounted | crates/crab-admin/src/live_metrics.rs:162-166 | the volume a series is ranked by counts each of its entries once |
| LiveBuckets.TopSeries | crates/crab-admin/src/live_metrics.rs:158-168 | the groups kept are the busiest, busiest first, at most 20 |
| KeyUsage.UsageSync.BuildLookup | crates/crab-admin/src/key_usage_sync.rs:71-86 | for each consumer the lookup lists exactly the keys with that name or token, each once |
| KeyUsage.UsageSync.SyncOnce | crates/crab-admin/src/key_usage_sync.rs:48-129 | a key charged by a newer entry is of this month with the sums over those entries on top of what this month had, any other key and field is unchanged, and the watermark moves to the newest timestamp |
| KeyUsage.CountedIsBilled | crates/crab-admin/src/key_usage_sync.rs:111-124 | the same field by field for any entries |
| KeyUsage.NewMonthStartsOver | crates/crab-admin/src/key_usage_sync.rs:116-121 | over runs of ticks in two months the counters end as the sums over what the second month read |
| KeyUsage.CountedAppend | crates/crab-admin/src/key_usage_sync.rs:96-125 | counting in two goes is counting at once |
| KeyUsage.LoadsNewExactly | crates/crab-admin/src/trace_log.rs:592-613 | a load is complete if and only if nothing it left unread is newer than the cutoff |
| KeyUsage.TickCountsBatch | crates/crab-admin/src/key_usage_sync.rs:48-129 | a tick counts just the new part of what arrived since the one before |
| KeyUsage.TicksCountOnce | crates/crab-admin/src/key_usage_sync.rs:48-129 | whatever the schedule, counters equal one count over the entries that arrived in time |
| KeyUsage.TicksCountAllExactly | crates/crab-admin/src/key_usage_sync.rs:48-129 | with complete loads a key's counters equal one count over all arrivals if and only if no late entry charges it |
| KeyUsage.ReadOnce | crates/crab-admin/src/key_usage_sync.rs:96-131 | whatever the loads return, cut short or failed, no arrival is read twice and nothing else is read |
| KeyUsage.AnyLoadsCountExactly | crates/crab-admin/src/key_usage_sync.rs:48-129 | with any loads a key's counters equal one count over all arrivals if and only if no missed one charges it |
| KeyUsage.MissedExists | crates/crab-admin/src/key_usage_sync.rs:96-131 | for every run the arrivals split into those read and those missed |
| KeyUsage.RestartRecounts | crates/crab-admin/src/key_usage_sync.rs:54-62 | the first tick after an Admin restart counts all logged in the last two minutes again and only what is newer of what arrived |
| KeyUsage.RestartCountsExactly | crates/crab-admin/src/key_usage_sync.rs:54-62 | a key is then right if and only if no entry of the last two minutes charges it |
| KeyUsage.CountingKeepsBalance | crates/crab-admin/src/key_usage_sync.rs:112-121 | ticks keep tokens = input + output, and its weak form |
| KeyUsage.MergeWeakensBalance | crates/crab-admin/src/state.rs:1100-1104 | merging keeps tokens <= input + output, and equality exactly when one side leads in both |
| DomainUsage.RestoreDominates | crates/crab-admin/src/domain_usage_sync.rs:117-178 | the restored counters are the least that are at least both values read |
| DomainUsage.DomainSync.RestoreToGateway | crates/crab-admin/src/domain_usage_sync.rs:117-178 | the Gateway ends with the overlay, overwriting what was recorded since the reading, also when only the answer is lost; a call failing earlier leaves it to its traffic |
| DomainUsage.DomainSync.Persist | crates/crab-admin/src/domain_usage_sync.rs:72-83 | every reading worth a row replaces it, no other row changes; the first failing upsert stops the loop with the ones before it written |
| DomainUsage.DomainSync.SyncOnce | crates/crab-admin/src/domain_usage_sync.rs:41-83 | a tick is the specified transition, and the network alone decides which call fails |
| DomainUsage.RestoresExactly | crates/crab-admin/src/domain_usage_sync.rs:50-70 | over any run a tick restores if and only if its uptime is below the one read by the last tick that got past its restore step |
| DomainUsage.DropIsSeen | crates/crab-admin/src/domain_usage_sync.rs:50-70 | an uptime below that of the reading tick before it is always seen |
| DomainUsage.RestoringTickKeepsExactly | crates/crab-admin/src/domain_usage_sync.rs:41-83 | a tick keeps PostgreSQL from dropping if and only if the reading taken first was no smaller |
| DomainUsage.RestoringTickCanDrop | crates/crab-admin/src/domain_usage_sync.rs:41-83 | the tick that restores the Gateway can lower PostgreSQL |
| DomainUsage.RestoreStartsRecovery | crates/crab-admin/src/domain_usage_sync.rs:56-68 | the detecting tick puts the Gateway at least where PostgreSQL was |
| DomainUsage.RecoveredAfterOneTick | crates/crab-admin/src/domain_usage_sync.rs:41-83 | whatever traffic and ticks follow in the month, one completed tick after detection PostgreSQL is at least where it was at detection, for good |
| DomainUsage.RowsKeptExactly | crates/crab-admin/src/domain_usage_sync.rs:72-83 | through any run of a month, Gateway restarts included, PostgreSQL never drops if and only if no tick writes a smaller reading |
| DomainUsage.RestartRecovered | crates/crab-admin/src/domain_usage_sync.rs:41-83 | from the restart on: if no tick before detection wrote a smaller reading, PostgreSQL returns to its pre-restart rows, for good |
| DomainUsage.RestartSeenRecovers | crates/crab-admin/src/domain_usage_sync.rs:27-83 | the same from a sync that has just started, on the uptimes read alone |
| DomainUsage.PromptProbeRecovers | crates/crab-admin/src/domain_usage_sync.rs:27-83 | if the first reading tick after the restart has the new uptime, PostgreSQL returns to its pre-restart rows |
| DomainUsage.WillRecoverExactly | crates/crab-admin/src/domain_usage_sync.rs:117-178 | at detection, recovery to any earlier rows is certain whatever follows if and only if Gateway and PostgreSQL merged are at least those rows |
| DomainUsage.StaleProbeLosesRows | crates/crab-admin/src/domain_usage_sync.rs:50-68 | a tick on a stale uptime between restart and detection loses the old rows however many ticks follow |
| TracePaging.CursorRoundTrip | crates/crab-admin/src/pg.rs:2333-2345 | a cursor parses back to its row, colons in the hash included |
| TracePaging.QueryPage | crates/crab-admin/src/pg.rs:2317-2440 | the query returns the page of the filtered rows strictly below the cursor |
| TracePaging.WalkFollowsCursors | crates/crab-admin/src/pg.rs:2409-2440 | the page after a cursor starts right below the row the cursor was taken from |
| TracePaging.WalkVisits | crates/crab-admin/src/pg.rs:2409-2440 | the pages concatenate to the rows visited |
| TracePaging.VisitedRow | crates/crab-admin/src/pg.rs:2409-2440 | which row comes at each place of the walk |
| TracePaging.MissedRow | crates/crab-admin/src/pg.rs:2409-2440 | the row at each page break is never visited |
| TracePaging.VisitedCount | crates/crab-admin/src/pg.rs:2409-2440 | all rows but one per page break are visited |
| TracePaging.VisitedDescending | crates/crab-admin/src/pg.rs:2345-2366 | timestamps never increase along the walk and hashes fall within one timestamp, so pages are disjoint |
| TracePaging.CompleteExactly | crates/crab-admin/src/pg.rs:2409-2440 | the walk is complete if and only if everything fits one page |
| TracePaging.LastRowCursorIsComplete | crates/crab-admin/src/pg.rs:2345-2366 | a cursor taken from the last returned row makes every walk complete |
| LogRetention.SeparateLogsAreApart | crates/crab-admin/src/log_management.rs:330-341 | logs outside the capture tree, neither name a prefix of the other, share no file and match no pruning rule |
| LogRetention.RetentionRun.DeleteOld | crates/crab-admin/src/log_management.rs:315-366 | only files up to the cutoff go, and all of them unless a removal fails |
| LogRetention.RetentionRun.PruneByCount | crates/crab-admin/src/log_management.rs:539-581 | exactly the excess goes, first names first |
| LogRetention.RetentionRun.PruneByDiskUsage | crates/crab-admin/src/log_management.rs:584-620 | the shortest oldest-first run of files that suffices is removed |
| LogRetention.RetentionRun.BodyStage | crates/crab-admin/src/log_management.rs:685-717 | files go only with enough later names; without failures exactly the last names up to the limit stay |
| LogRetention.RetentionRun.EnforceRetention | crates/crab-admin/src/log_management.rs:437-536 | whatever fails only prunable files in excess of a limit go; without failures the four stages leave exactly what they specify and every enabled limit holds |
| LogRetention.KeepLastExactly | crates/crab-admin/src/log_management.rs:539-581 | dropping the files with that many later names is keeping the last names, as many as the limit allows |
| LogRetention.SmallerNamesGo | crates/crab-admin/src/log_management.rs:571-580 | what a count limit removes has smaller names than what it keeps |
| LogRetention.EnforcedMeetsLimits | crates/crab-admin/src/log_management.rs:437-536 | a run without failures loses only prunable files and meets every enabled limit |
| LogRetention.EnforcedTakesExcess | crates/crab-admin/src/log_management.rs:437-536 | each file it takes was too old, crowded out by later names, or part of a total over the limit |
| LogRetention.IdleExactly | crates/crab-admin/src/log_management.rs:437-536 | it changes nothing if and only if all limits were met before, so a second run is idle |
| LogRetention.FreedIsDrop | crates/crab-admin/src/log_management.rs:437-536 | bytes reported freed are the sum of the deleted sizes and the drop of the total |
| LogRetention.ActiveNeverDeleted | crates/crab-admin/src/log_management.rs:437-536 | no active file is deleted when active files are apart |
| LogRetention.CaughtIsDeleted | crates/crab-admin/src/log_management.rs:315-366 | every clean run with an age limit deletes an active file that matches a rule and is no newer than the cutoff |
| LogRetention.SafeExactlyWhenApart | crates/crab-admin/src/log_management.rs:437-536 | a layout is safe for every file system, policy and clean run if and only if its active files are apart |
| LogRetention.ExtendedNameIsDeleted | crates/crab-admin/src/log_management.rs:330-341 | a debug log whose name extends the trace log's is deleted by age retention |
| LogRetention.DefaultLayoutIsApart | crates/crab-admin/src/log_management.rs:16-29 | the default paths are apart |
| AccountPool.PickMeaning | crates/crab-admin/src/oauth_codex.rs:185-214 | the record kept for an account is the first with a refresh token, or the first when none has one |
| AccountPool.PickPerAccount | crates/crab-admin/src/oauth_codex.rs:185-214 | the loop keeps that record for each account and no other |
| AccountPool.ExtendsPool | crates/crab-admin/src/oauth_codex.rs:403-424 | merging only appends, and only credentials |
| AccountPool.AddsNoRepeat | crates/crab-admin/src/oauth_codex.rs:403-424 | no appended entry repeats a secret or a usable account |
| AccountPool.CoversSpecs | crates/crab-admin/src/oauth_codex.rs:403-424 | every credential ends up held |
| AccountPool.ExtendsExactly | crates/crab-admin/src/oauth_codex.rs:403-424 | a merge adds something if and only if some credential is not held yet |
| AccountPool.Extend | crates/crab-admin/src/oauth_codex.rs:395-424 | the loop with its two seen-sets is that extension, and reports a change exactly when there is one |
| CodexPool.Rebuild | crates/crab-admin/src/oauth_codex.rs:185-238 | one entry per usable account of the valid credentials, distinct ignoring case, with a refresh token wherever the account has one; nothing when no account is usable |
| CodexPool.MergeCredentials | crates/crab-admin/src/oauth_codex.rs:379-437 | the new pool is the extension by the profile's valid credentials |
| CodexPool.MergeExtends | crates/crab-admin/src/oauth_codex.rs:379-437 | merging extends, repeats nothing, covers every valid credential, and a second merge changes nothing |
| CodexPool.RebuiltFromGood | crates/crab-admin/src/oauth_codex.rs:185-238 | every rebuilt entry is enabled and holds the token of an enabled, genuine Codex login of the profile |
| CodexPool.SpecsAreGood | crates/crab-admin/src/oauth_codex.rs:379-402 | a merge offers the tokens of exactly those |
| CodexPool.AccountIdStable | crates/crab-admin/src/oauth_codex.rs:273-282 | deriving an entry's account again gives it back if and only if it has no outer white space or is the word default in it |
| CodexPool.MergeAfterRebuild | crates/crab-admin/src/oauth_codex.rs:379-437 | after a rebuild a merge adds no credential with a usable account, unless that is the word default in outer white space |
| CodexPool.SpacedDefaultParts | crates/crab-admin/src/oauth_codex.rs:273-282 | two such claims share a rebuilt account and part at the second look |
| CodexPool.SpacedDefaultMerges | crates/crab-admin/src/oauth_codex.rs:379-437 | with those claims a merge right after a rebuild adds the other credential |
| FetchCache.StepKeeps | crates/crab-admin/src/metrics_history.rs:536-564 | every step of every caller keeps the cache's invariant |
| FetchCache.OneFetchInFlight | crates/crab-admin/src/metrics_history.rs:536-564 | in every interleaving at most one fetch is in flight, and none while the body is fresh |
| FetchCache.StoresFarApart | crates/crab-admin/src/metrics_history.rs:25-47 | any k stores after another are at least k lifetimes apart |
| FetchCache.AnswersHonest | crates/crab-admin/src/metrics_history.rs:536-564 | every body returned is the newest stored: just fetched, younger than the lifetime, or between lifetime and stale limit; an error means nothing was young enough |
| FetchCache.StaleOnlyAfterFailure | crates/crab-admin/src/metrics_history.rs:553-562 | a stale body or an error is returned exactly after that caller's failed fetch |
| FetchCache.LockIsReleased | crates/crab-admin/src/metrics_history.rs:541-564 | whoever holds the lock can always go on to let it go |

## Left out

- SQL text, connection pools, schema migrations, JSON and HTTP: tables are maps and sequences, calls succeed or fail.
- Integer widths: counters are unbounded; only the casts to `u32` of a restored rpm limit and to `i64` of a budget are modelled. Sums of scores beyond `i64` are not.
- Floating-point rounding: averages, rates and spend are real numbers.
- Gateway listings that hide tokens: the Gateway's own listing always exposes them.
- Token length: the 512 limit counts characters, the Gateway counts bytes.
- AdminState.AppState.Dedupe: any one row per token may survive, where PostgreSQL keeps the newest (`updated_at`, then id); the theorems hold for all choices.
- MigrationRuns.NoTokenLost: tracks ids and tokens only, not rows with an empty token, key edits or keys a user deletes in the dashboard.
- AdminState.AppState.RestoreControlPlane: domain policies are absent, as are key creation and editing in the dashboard.
- LogRetention.RetentionRun.PruneByDiskUsage: counts a file matched by two rules once, where the source lists it twice; the two agree for the layouts of `SeparateLogsAreApart`.
- Compressed-log retention, clearing and truncating logs on request, unreadable directory entries.
- Charts without a window, window rates, histogram percentiles and Prometheus parsing; `BucketsNeverOverCount` covers any ascending keys.
- Open, high, low and close of token counts, most frequent values, labels and colours in live metrics.
- KeyUsage.TicksCountAllExactly: takes loads as complete, in the sense of `LoadsNewExactly`; `AnyLoadsCountExactly` does not.
- DomainUsage.RecoveredAfterOneTick: assumes no second Gateway restart after detection. Pruning of old months is absent; as written, its date never parses.
- DomainUsage.WillRecoverExactly: asks that no counter is negative.
- MetricsRing.RestartKeepsRing: every sample of the ring is assumed stored. The overview and metrics handlers seed an empty ring with a sample they do not store, and a failed insert is only logged.
- KeyBudgets.RunKeepsBudgets: starts from `Compatible`, as do the lemmas on its steps; `EveryRunKeepsExactly` shows that this is needed.
- Decoding of access-token claims (a parameter), and the Gateway push after a rebuild.
- The overview caches use the same double check without a stale fallback; their pre-warming stores without checking, so stores there need not be a lifetime apart.
- Collation: request hashes are compared code point by code point.
- Trace-log partitions and their pruning, GeoIP, OAuth exchange, infrastructure monitoring.
