# Deployment evidence and data repair: a verified model

The trading platform's deployment scripts decide, from evidence they write themselves, whether a release may go
on; its repair scripts rewrite broker streams, candle history and retained market data. This project models that
logic in Dafny and proves what those decisions are worth.

- **Durable cutover** (`scripts/check_nats_durable_cutover.py`). `Json`, `Durables` and `Evidence` hold the
  evidence values, the classification of a consumer against its declaration, and the re-validation of a persisted
  row. `Pagination` and `Inventory` read the broker and match it with the declarations; `FirstStage` is the first
  stage's decision and its re-validation by the second. `StrictContinuity`, `ActiveContinuity` and
  `ContinuityBridge` are the two comparisons of snapshots, over the pairwise loops of `Comparison`, and
  `CutoverRuns` is what whole chains of accepted comparisons keep.
- **Live Docker events** (`scripts/docker_event_monitor.py`). `DockerEvidence` is the packet and its independent
  validator, `DockerMonitor` the monitor as a state machine over its atomic steps and explicit clock readings,
  `LiveMonitor` the object whose methods take those steps in place; `Sorting` is Python's stable sort.
- **Stream migration** (`scripts/nats_stream_migrate.py`): `StreamMigration`.
- **Candle backfill** (`scripts/rdp_deep_backfill_api.py`): `CandleBackfill` (paging and batches) and `CandleGaps`
  (gap compression), over `Grid`.
- **Retention** (`scripts/rdp_microstructure_retention.py`): `Retention`.
- **Environment snapshot** (`scripts/nats_target_env_snapshot.py`): `EnvSnapshot` and `EnvProfile`.
- **Stability observer** (`scripts/observe_deployment_stability.py`): `Observer`, over `Grid`.

`Collections` goes through finite sets and gathers what a loop reports of each element. `dafny verify dfyconfig.toml` checks
everything.

## How the code is represented

Exceptions are failure results. A dictionary whose key set a checker tests for exactly has a constructor of its
own in `Json`; any other dictionary is a finite map read with `get`. Python's `==` (under which `True == 1 == 1.0`)
is equality of normal forms. Regular expressions, timestamp parsing, SHA-256, `repr` and `float` of a float, the
broker, the candle server, the probes and the clocks are function parameters, so every theorem holds for all of
them; where one needs a property it is a `requires`. A float is a real of which the parameter `isFloat` holds: the
printer is asked to print each of those, and only those, as plain text that the parser reads back, and an instance
of that is exhibited. A section guarded by the monitor's lock is one step.

Loops are methods proved equal to a specification function or predicate, and the theorems are about that
specification. `StreamMigration.Broker`, `Retention.Database`, `Observer.Clock`, `Observer.Sampler` and
`LiveMonitor.LiveDockerEventMonitor` are objects updated in place.

## What turned out differently from what one might expect

- Re-validation is not the identity on accepted rows: a whole ack wait stored as an integer is accepted and handed
  on as a float. A row is returned unchanged exactly when the classifier can emit it.
- Strict continuity is transitive except when the first snapshot's stream does not itself qualify for a head trim
  while a later, equal one does (`max_age_seconds` stored as True, and then as 1.0); the exact condition is proved.
- The active comparison cannot read a row with a negative window, although the classifier accepts one.
- The migration planner's snapshot leaves out replicas, duplicate window and purge protection: after a successful
  migration a second plan is a no-op exactly for targets that were met before or have one replica, a duplicate
  window of 120 seconds, no purge protection and a maximum age of at most ten billion. A stream left alone may still
  differ in retention, storage or discard policy, which are not compared.
- Candle paging takes an empty page for a stall; the exit after three empty pages is never reached. With a server
  whose rows before the start all lie after the target and end on a full page the run fails.
- Before 1970, a time within the last second before a grid point is floored onto that point, and its ceiling is one
  step too far.
- A rendered environment snapshot is not bounded in length, but one over 4096 bytes does not verify.
- An event recorded only because its container id was tracked, under a name outside the allowlist, makes the
  monitor's own validation reject the packet.

## Model

| member | source | states |
|---|---|---|
| Durables.UnblockedIffConfigured | scripts/check_nats_durable_cutover.py:648-763 | a consumer is not blocked exactly when its settings are the declared ones (up to the two spellings of a filter and of no group), its delivery limit is the target, its ack wait can be raised to the target, and an event consumer has nothing pending that the target window could lose |
| Durables.VerdictMeaning | scripts/check_nats_durable_cutover.py:708-735 | each verdict of an unblocked consumer, both directions, in terms of window, pending count and ack wait |
| Durables.ImageIsAccepted | scripts/check_nats_durable_cutover.py:861-1029 | every row built from a well-formed state on the declared stream is re-validated and returned unchanged |
| Durables.AcceptedIsInImage | scripts/check_nats_durable_cutover.py:861-1029 | every accepted row compares equal to, and is returned as, the row of the well-formed state it reconstructs |
| Durables.ReturnedUnchangedIffInImage | scripts/check_nats_durable_cutover.py:861-1029 | a row is returned unchanged exactly when the classifier can emit it |
| Durables.RecomputeIdempotent | scripts/check_nats_durable_cutover.py:861-1029 | what re-validation returns is re-validated to itself |
| Durables.VerdictCannotBeForged | scripts/check_nats_durable_cutover.py:1015-1029 | two accepted rows with the same raw facts carry the same status and blockers |
| Durables.AcceptedRowNeedNotBeInImage | scripts/check_nats_durable_cutover.py:993-1029 | a whole ack wait stored as an integer is accepted and handed on as a float |
| Evidence.IndexRows | scripts/check_nats_durable_cutover.py:1138-1160 | the index loop computes the specified index, with the error of the first unreadable or repeated identity |
| Evidence.IndexIsBijective | scripts/check_nats_durable_cutover.py:1138-1160 | an index has as many entries as rows, each under its own key |
| Evidence.DistinctKeysIndex | scripts/check_nats_durable_cutover.py:1138-1160 | rows with readable, pairwise different keys are always indexed |
| Pagination.FetchAllPages | scripts/check_nats_durable_cutover.py:1795-1817 | on any server the loop ends within the limit, with the specified result |
| Pagination.PaginationIsComplete | scripts/check_nats_durable_cutover.py:1795-1817 | however the server cuts a fixed list into pages, the fetch succeeds exactly when names are distinct and not empty and the list is within the limit, and returns it in order |
| Pagination.FetchedNamesAreDistinct | scripts/check_nats_durable_cutover.py:1795-1817 | on any server at all a result has distinct, non-empty names and stays within the limit |
| Inventory.ValidateProjection | scripts/check_nats_durable_cutover.py:204-229 | accepts exactly when totals agree, stream names are distinct, every stream counts its consumers and every consumer is on a listed stream; which failure is reported |
| Inventory.CountsAddUp | scripts/check_nats_durable_cutover.py:204-229 | the streams' own counts add up to the number of consumers listed |
| Inventory.QueryBroker | scripts/check_nats_durable_cutover.py:2325-2374 | against any broker: what is returned is what was paged and could be read, its pairs are distinct and it passes the projection; it is returned exactly when paging, reading and projection all succeed |
| Inventory.OwnershipIsBijective | scripts/check_nats_durable_cutover.py:766-858 | nothing blocked, unexpected or missing: consumers and declarations correspond one to one on stream and durable, although a durable name may recur across streams |
| FirstStage.TargetMeaning | scripts/check_nats_durable_cutover.py:2208-2264 | a stream target does not block exactly when every existing stream is declared with equal settings and a fresh volume has none; it matches exactly when the same streams exist as well |
| FirstStage.ValidateFirstStage | scripts/check_nats_durable_cutover.py:1032-1135 | the validator accepts exactly the payloads of the specification, and any other with the error of the first check that fails, in the order of the checks |
| FirstStage.PassedIffAccepted | scripts/check_nats_durable_cutover.py:2777-2834 | for a quiescent first stage, preserved or fresh, the evidence written as passed is exactly the evidence the second stage accepts |
| FirstStage.PassedIsAccepted | scripts/check_nats_durable_cutover.py:2393-2497 | the payload of a passed decision satisfies every check of the validator |
| FirstStage.FreshIsEmpty | scripts/check_nats_durable_cutover.py:2244-2250 | a fresh installation passes only with no stream and hence no consumer |
| FirstStage.CountersAreRight | scripts/check_nats_durable_cutover.py:1101-1105 | the stream rows written are indexed with counters that count the consumers written |
| FirstStage.AcceptedIsComplete | scripts/check_nats_durable_cutover.py:1032-1083 | accepted evidence of a preserved installation, from wherever, has exactly one re-validated, unblocked row for each declaration |
| StrictContinuity.EvaluateCutoverContinuity | scripts/check_nats_durable_cutover.py:1176-1326 | evidence whose rows can be indexed and read gives a report: its violations are exactly those there are, none exactly when the snapshots continue each other, and its trims exactly the passive ones; otherwise it is an error |
| StrictContinuity.CompareFacts | scripts/check_nats_durable_cutover.py:1190-1326 | the violations reported are exactly those of some pair of rows or set of identities, there is none exactly when the snapshots continue each other, and each passive trim is listed once, with its amounts |
| StrictContinuity.ContinuesReflexive | scripts/check_nats_durable_cutover.py:1176-1326 | a readable snapshot continues itself |
| StrictContinuity.ContinuesAntisymmetric | scripts/check_nats_durable_cutover.py:1176-1326 | snapshots that continue each other agree on all that is compared |
| StrictContinuity.ContinuesTransitive | scripts/check_nats_durable_cutover.py:1176-1326 | accepted steps compose through head trims exactly when the first snapshot's streams qualify for the trims of the second step |
| StrictContinuity.TransitivityCanFail | scripts/check_nats_durable_cutover.py:1218-1240 | three rows, the first with its maximum age stored as True, on which composition fails |
| StrictContinuity.StepConserves | scripts/check_nats_durable_cutover.py:1203-1266 | a step keeps each stream's last sequence and its number of sequence numbers no longer held |
| StrictContinuity.ProperStepsAreFinite | scripts/check_nats_durable_cutover.py:1203-1266 | a run has no more proper steps than there were messages at its start |
| ActiveContinuity.EvaluateActiveRuntimeContinuity | scripts/check_nats_durable_cutover.py:1329-1612 | evidence whose rows can be indexed and read gives a report: its violations are exactly those there are, none exactly when the active relation holds, and its migrations exactly the authorised ones; otherwise it is an error |
| ActiveContinuity.CompareFacts | scripts/check_nats_durable_cutover.py:1400-1597 | the violations reported are exactly those of some pair of rows or set of identities, there is none exactly when the active relation holds, and exactly the authorised migrations are listed |
| ContinuityBridge.StrictImpliesActive | scripts/check_nats_durable_cutover.py:1176-1612 | whenever the active check can read the rows, snapshots that pass the strict check pass it under any options |
| CutoverRuns.EvaluatedRowReads | scripts/check_nats_durable_cutover.py:1169-1173 | a row of the classifier can be read back exactly when its window is not negative, and then says what the state says |
| CutoverRuns.CheckIsStep | scripts/check_nats_durable_cutover.py:1400-1597 | on rows of the classifier, passing with migrations allowed is exactly one of: steady, shrunk, reconciled, rebuilt |
| CutoverRuns.EventDurablesAreKept | scripts/check_nats_durable_cutover.py:1329-1612 | over any chain an event durable keeps its creation time and configuration, no cursor component decreases, and its window changes only to one, when nothing was pending |
| CutoverRuns.TargetsAreAbsorbing | scripts/check_nats_durable_cutover.py:1490-1597 | once the window is one, or the mutable configuration the target, it stays so for the rest of the run |
| CutoverRuns.AtMostOneInPlaceMigration | scripts/check_nats_durable_cutover.py:1490-1597 | over any chain a durable is migrated in place at most once, and never after a rebuild |
| CutoverRuns.StandingStill | scripts/check_nats_durable_cutover.py:1329-1612 | a broker that stands still, with readable evidence, makes a run |
| CutoverRuns.EvidenceIsEmitted | scripts/check_nats_durable_cutover.py:766-858 | the rows written for the consumers read from a broker can always be indexed, and the index read back is an observation of those consumers, so that the results about runs apply to it |
| CutoverRuns.ByIdentityCovers | scripts/check_nats_durable_cutover.py:526-583 | the declarations indexed by row identity give each consumer on its declared stream its own declaration |
| DockerEvidence.CheckSegments | scripts/docker_event_monitor.py:865-913 | the segment loop accepts exactly clean, well-timed, chained segments that cover start and cutoff and end at the declared end |
| DockerEvidence.CheckEvents | scripts/docker_event_monitor.py:914-953 | the event loop accepts exactly sanitised, allowed, ordered, in-window events not seen before |
| DockerEvidence.ValidateLiveWindow | scripts/docker_event_monitor.py:806-953 | the validator accepts exactly the valid packets, the literal trust boundary included |
| DockerEvidence.AcceptedWindowIsCovered | scripts/docker_event_monitor.py:865-913 | every instant of an accepted window lies in a listed segment read to a clean end, with no order of segments assumed |
| DockerEvidence.AcceptedEventsAreOrdered | scripts/docker_event_monitor.py:914-953 | history and window together are in order of time, without duplicates, allowed, and each on its side of the start |
| DockerMonitor.RunRecords | scripts/docker_event_monitor.py:466-506 | over any interleaving of segments: what is recorded was delivered, is recordable and is there once; below the limit nothing delivered under an allowed name is missing; a rename is fatal |
| DockerMonitor.RunRecordsDue | scripts/docker_event_monitor.py:466-506 | what is recorded is, below the limit, exactly what was due when it was delivered to a live segment: the lifecycle events of an allowed name or of a container id tracked at that moment |
| DockerMonitor.DueIsRecordedOnce | scripts/docker_event_monitor.py:466-506 | below the limit every event that was ever due is recorded exactly once, and no other event at all |
| DockerMonitor.ConfiguredToleranceFits | scripts/docker_event_monitor.py:375-405 | every configuration the constructor accepts has a clock tolerance shorter than its overlap, and two overlaps fit into a segment |
| DockerMonitor.DeliveredIsRecordedOnce | scripts/docker_event_monitor.py:466-506 | below the limit each distinct lifecycle event of an allowed container is recorded exactly once if delivered at all |
| DockerMonitor.RenameNeverSeals | scripts/docker_event_monitor.py:478-489 | after any rename no packet is ever returned, whatever happens next |
| DockerMonitor.RunKeepsInv | scripts/docker_event_monitor.py:508-588 | every run on a wall clock that never goes back keeps the segments' timing, and finishes without error only with every segment done and the cutoff covered |
| DockerMonitor.PacketOfOrderly | scripts/docker_event_monitor.py:709-793 | a finished monitor whose segments became ready in order always has a packet whose segments cover the window |
| DockerMonitor.FinishedRunSealsIff | scripts/docker_event_monitor.py:670-793 | such a run's packet passes the validator exactly when every recorded event is of an allowed name and not after the last deadline covered |
| DockerMonitor.TrackedStrangerIsRefused | scripts/docker_event_monitor.py:490-506 | for any container id, under the default timings: a clean, finished run with sanitised events whose packet is valid but for one event of a tracked container under another name, and which therefore seals nothing |
| Sorting.SortKeeps | scripts/docker_event_monitor.py:726-740 | sorting permutes |
| Sorting.SortAscends | scripts/docker_event_monitor.py:726-740 | sorting by a comparison that agrees with a rank puts the ranks in order |
| LiveMonitor.LiveDockerEventMonitor.RecordEvent | scripts/docker_event_monitor.py:466-506 | the method takes the specified step in place and keeps its key set in agreement with the events |
| LiveMonitor.LiveDockerEventMonitor.SegmentEnded | scripts/docker_event_monitor.py:533-556 | the end of a worker: completion readings, the three timing errors, the error made fatal |
| LiveMonitor.LiveDockerEventMonitor.Coordinate | scripts/docker_event_monitor.py:562-588 | one turn of the coordinator: give up, finish, or open the next overlapping segment |
| LiveMonitor.LiveDockerEventMonitor.Seal | scripts/docker_event_monitor.py:670-707 | returns exactly the packet that was built without error and validated |
| StreamMigration.ComputePlan | scripts/nats_stream_migrate.py:171-289 | refuses exactly the state where the market stream stands without the event stream, otherwise the specified plan |
| StreamMigration.ApplyPlan | scripts/nats_stream_migrate.py:320-366 | two ordered passes over the broker, stopping at the first refusal |
| StreamMigration.SyncConfig | scripts/nats_stream_migrate.py:430-480 | the whole script: touches nothing when refused, otherwise succeeds exactly when it may and then leaves the migrated streams; when it is done no two streams share a subject if none did before |
| StreamMigration.MigrationSucceedsIff | scripts/nats_stream_migrate.py:171-366 | disjoint targets are migrated exactly when no target claims a subject that another stream still holds at that moment; and the streams that result |
| StreamMigration.OrderKeepsNoOverlap | scripts/nats_stream_migrate.py:320-366 | on a broker that applies every action without asking: when the migration may run, no two streams share a subject after any prefix of the updates, nor after any prefix of the additions that follow them |
| StreamMigration.AddingFirstOverlaps | scripts/nats_stream_migrate.py:330-366 | the same broker with the additions first: as soon as a missing target wants a subject that an existing stream holds, two streams share it |
| StreamMigration.MigratedMeetsTargets | scripts/nats_stream_migrate.py:320-366 | afterwards every target is met on all the planner compares, and is exactly the target unless it was left alone |
| StreamMigration.NoopIff | aats/bus/nats_bus.py:520-610 | a stream is left alone exactly when the compared settings match, up to nanoseconds |
| StreamMigration.ReplanIsNoopIff | scripts/nats_stream_migrate.py:294-318 | planning again does nothing exactly for targets met before or that settle |
| StreamMigration.ReplanCanUpdate | scripts/nats_stream_migrate.py:294-318 | one target with three replicas on an empty broker is added as declared and updated again by the next plan |
| StreamMigration.AdditionsMustWait | scripts/nats_stream_migrate.py:330-366 | adding before updating is refused while an existing stream holds a subject of the missing one |
| CandleBackfill.Backfill | scripts/rdp_deep_backfill_api.py:484-607 | the paging loop ends within 500 requests on any server, with the specified state |
| CandleBackfill.RunAccounts | scripts/rdp_deep_backfill_api.py:484-607 | on any server nothing collected is lost or written twice, batches are full, and a completed run never ends on an empty page |
| CandleBackfill.BackfillIsComplete | scripts/rdp_deep_backfill_api.py:465-607 | against a fixed history, exactly when the run completes; then the observed set is the confirmed rows of the window and the batches and remainder hold each once, newest first |
| CandleBackfill.FullLastPageFails | scripts/rdp_deep_backfill_api.py:484-539 | complete histories after the target that end on a full page, on which the run does not complete |
| CandleBackfill.StoppedRunsHaveNoHoles | scripts/rdp_deep_backfill_api.py:465-607 | whatever stops the run, what was collected is what a contiguous prefix of the history holds |
| CandleBackfill.DedupeRows | scripts/rdp_deep_backfill_api.py:322-331 | the loop computes the specified deduplication |
| CandleBackfill.DedupedTimes | scripts/rdp_deep_backfill_api.py:322-331 | every time is kept, once |
| CandleBackfill.DedupedKeepsFirst | scripts/rdp_deep_backfill_api.py:322-331 | the row kept is the first of its time |
| CandleBackfill.DedupedIdentity | scripts/rdp_deep_backfill_api.py:795-798 | rows collected from a fixed history are written as they are |
| CandleGaps.FloorIsAligned | scripts/rdp_deep_backfill_api.py:194-197 | flooring lands on the grid, less than a step below the value, and keeps grid values; it lands at or below the value exactly when the value is not in the last second before a grid point that precedes 1970 |
| CandleGaps.CeilIsAligned | scripts/rdp_deep_backfill_api.py:200-202 | the ceiling is a grid value at or above the value, and rounding up twice changes nothing; it is the next one except for exactly those values |
| CandleGaps.CandleGapRanges | scripts/rdp_deep_backfill_api.py:205-238 | the loop computes the specified gaps |
| CandleGaps.RangesAreExact | scripts/rdp_deep_backfill_api.py:205-238 | the ranges are ordered, apart, maximal, and cover exactly the positions not seen |
| CandleGaps.GapsAreExact | scripts/rdp_deep_backfill_api.py:205-238 | a grid point lies in a gap exactly when it was not observed |
| CandleGaps.GapsAreSeparated | scripts/rdp_deep_backfill_api.py:205-238 | gaps are in order, and the points that end one and precede the next were observed |
| CandleGaps.LengthsAddUp | scripts/rdp_deep_backfill_api.py:205-238 | positions in gaps and positions seen add up to the grid |
| CandleGaps.FullCoverageIffNoGaps | scripts/rdp_deep_backfill_api.py:612-622 | on an aligned, non-empty window with observed grid points, coverage is full exactly when there is no gap |
| Grid.GridSizeIsCeiling | scripts/observe_deployment_stability.py:321-339 | the number of slots is the length over the step, rounded up |
| Retention.Preflight | scripts/rdp_microstructure_retention.py:142-206 | succeeds exactly when no statement fails and every partition that expired by the start of the cutoff day has one eligible archive of its size that verifies, and pairs each partition with its archive; it changes nothing |
| Retention.DeletePreflighted | scripts/rdp_microstructure_retention.py:209-243 | after the preflight it fails exactly when a statement does; otherwise exactly the proved partitions go, their archives are retired, and the count is the rows gone |
| Retention.RunApply | scripts/rdp_microstructure_retention.py:294-353 | whichever statements fail: commits exactly when every table is ready and no statement failed; then only recent rows are left, archives of expired partitions are marked deleted and no other, and counts are exact; otherwise the database is as before |
| Retention.ExpiredIffKeyExpired | scripts/rdp_microstructure_retention.py:153-165 | with a day-aligned cutoff no partition holds both an expired and a recent row |
| Retention.RecentMeaning | scripts/rdp_microstructure_retention.py:209-243 | the rows left are those from the cutoff on, each as often as before |
| Retention.DryRunPredicts | scripts/rdp_microstructure_retention.py:124-139 | the dry run counts exactly the rows an apply with the same cutoff removes |
| EnvSnapshot.DecimalIsCanonical | scripts/nats_target_env_snapshot.py:44-51 | printing a positive integer gives canonical digits that read back as it |
| EnvSnapshot.CanonicalIsDecimal | scripts/nats_target_env_snapshot.py:153-158 | canonical digits are the printed form of their number |
| EnvSnapshot.TargetsWf | scripts/check_nats_durable_cutover.py:93-118 | the eight keys are plain, distinct, and name distinct settings |
| EnvSnapshot.StrictValues | scripts/nats_target_env_snapshot.py:131-173 | the strict parser accepts exactly the specified text, with the specified values |
| EnvSnapshot.PrintedTextParses | scripts/nats_target_env_snapshot.py:95-173 | parsing undoes printing, for every printer and parser that invert each other on the floats there are |
| EnvSnapshot.WholeFloatsPrint | scripts/nats_target_env_snapshot.py:44-51 | such a printer and parser exist |
| EnvSnapshot.ParsedTextPrints | scripts/nats_target_env_snapshot.py:95-173 | accepted text is exactly the printed form of its values |
| EnvSnapshot.RebuildInvertsRead | scripts/nats_target_env_snapshot.py:62-209 | rebuilding a manifest from the values read out of a loaded manifest gives it back |
| EnvSnapshot.ReadInvertsRebuild | scripts/nats_target_env_snapshot.py:62-209 | reading the values out of a rebuilt manifest gives them back |
| EnvSnapshot.VerifySnapshot | scripts/nats_target_env_snapshot.py:212-221 | verification succeeds exactly on short ASCII text that parses and rebuilds to the expected digest |
| EnvSnapshot.RenderedVerifiesIffShort | scripts/nats_target_env_snapshot.py:105-221 | a rendered snapshot verifies against its manifest's digest exactly when it is at most 4096 bytes long |
| EnvSnapshot.LongSnapshotFails | scripts/nats_target_env_snapshot.py:105-126 | a manifest with a number of more than 4096 digits renders to a snapshot that does not verify |
| EnvSnapshot.PowerOfTenIsLong | scripts/nats_target_env_snapshot.py:44-51 | ten to the m-th prints as m + 1 digits, so such numbers exist |
| EnvSnapshot.LongSnapshotExample | scripts/nats_target_env_snapshot.py:105-126 | a concrete input for it: the eight fields, two plain streams and any such number |
| EnvSnapshot.OnlyRenderedVerifies | scripts/nats_target_env_snapshot.py:212-221 | no other text verifies against that digest, unless the manifest it rebuilds to collides with the loaded one |
| EnvProfile.LoadOverrides | scripts/check_nats_durable_cutover.py:2089-2134 | the profile loop computes the specified overrides, failing on a repeated key or a value that is not positive |
| EnvProfile.OverridesAreAllowed | scripts/check_nats_durable_cutover.py:2089-2134 | whatever else a profile holds, its overrides are of allowed keys and printable |
| EnvProfile.SnapshotIsProfile | scripts/nats_target_env_snapshot.py:95-102 | a snapshot read as a profile overrides exactly the values it was printed from |
| EnvProfile.SnapshotLoadsSameManifest | scripts/check_nats_durable_cutover.py:2089-2151 | loading with the values of a loaded manifest gives the same manifest |
| Observer.Clock.Wait | scripts/observe_deployment_stability.py:184-202 | waiting reads the clock once or twice and never returns before the target |
| Observer.Sampler.Sample | scripts/observe_deployment_stability.py:292-319 | one sample in place: which probe failure or change is reported, and what is remembered |
| Observer.Observe | scripts/observe_deployment_stability.py:258-361 | the observation computes the specified result for any clock and any probes |
| Observer.ObservationMeaning | scripts/observe_deployment_stability.py:258-361 | a successful observation sampled once in each slot and once at the end, none early or late, elapsed within one interval of the duration, and saw one fingerprint and one container |
| Observer.SampleCountIsCeiling | scripts/observe_deployment_stability.py:321-361 | the number of samples is the duration over the interval, rounded up, plus one |

## Left out

- Subprocess, Docker, HTTP, NATS, socket and database calls, file writes, argument parsing, printing and logging.
- Threads and locks as such: each lock-protected section is one step, and waits and timeouts are absent.
- Floats are reals: no rounding, infinities or NaN. Timestamps are exact, also where `timestamp()` of a distant year would round.
- Reported lists that the scripts sort (violations, trims, migrations, evidence rows, drifted fields) are in some order; violation texts are constructors, and of a drifted stream only its name is kept.
- The facts listed in rows for unexpected and missing durables: only which consumers and declarations they are.
- Names are blank when they consist of ASCII whitespace; other Unicode whitespace is not considered.
- The JSON round trip of evidence through files, and the serialisation under a digest, are inside the digest function.
- `main` in the second stage beyond the two comparisons: quiescence, identity and volume checks enter the decision as one flag.
- DockerEvidence.ValidateLiveWindow: does not model the tests that packet fields are integers, strings and lists, because fields are typed here.
- FirstStage.ValidateFirstStage: does not model the names of the drifted settings, because a payload with a drifted stream is refused whatever they are.
- `close`, the health packet, the daemon protocol and the binding of the command line to one Docker daemon; a change of daemon identity is one fatal step.
- Purging and recreating streams: recreation deletes and adds stream by stream and has no comparable guarantee.
- StreamMigration.ComputePlan: does not model the texts of the listed actions, because nothing reads them back.
- Fetching retries, the archive of raw pages, writing staging rows and the merge pipeline of the candle backfill.
- The funding backfill, which repeats the candle loop with another cursor.
- Base64 around the rendered snapshot, and Python's limit on the digits of very long integers.
- The wall clock boundary and the collectors' heartbeats of the stability observation.
