# NavFleet backend: verified model

NavFleet's backend is a single-process monitoring server for a fleet of automated vehicles. Most of it moves data between MQTT, MongoDB and browsers; this project models the parts that are protocols and state machines, and proves what they keep over whole runs. `dafny verify dfyconfig.toml` checks everything.

Times are integer milliseconds. Files on disk and MongoDB collections are explicit maps and sequences, and what a failing write leaves behind is part of the step that makes it. Clocks, time zones, hashing, password checks and configuration parsing enter as parameters or abstract functions.

Each part has the same three layers:

- `XSteps` gives the meaning of every operation as a function from state to state, and runs of operations;
- `XProofs` proves the properties, over every input and every run;
- a class (or a set of loops) does what the TypeScript does, in place, and each of its methods is proved equal to the step it carries out, so the properties are properties of the class.

For each main operation one result says what it answers and what it leaves, in terms of the fields of what came in and without naming the functions that compute it: `ContestedSaveAnswers` and `SavedCarriesTheEdit`, `FrameIsRecorded` and `SweepMarksTheSilent`, `OutagesLoseNoReport`, `ServedRowsDescribe`, `PollSendsIff`, `LetInIff`, `ArrivalJoinsTheLine`, `BufferedFramesPushOutTheOldest`, `ShippedMigratesRows`.

| part | source | steps and proofs | imperative form |
|---|---|---|---|
| three-way merge | `configMerge.ts` | `ConfigMerge`, `ConfigMergeProofs` | `ConfigMergeLoops` |
| config registry | `configRegistry.ts` | `ConfigSteps`, `ConfigProofs`, `ConfigSaveProofs`, `ConfigShownProofs` | `ConfigRegistry` |
| fleet store | `store.ts`, `normalize.ts` | `FleetSteps`, `Fleet*Proofs`, `FleetStreamRuns` | `FleetStore` |
| ingest queue | `store.ts` | `QueueSteps`, `QueueProofs` | `IngestQueue` |
| alert occurrences | `persistence.ts` | `OccurrenceSteps`, `OccurrenceProofs`, `OccurrenceReplayProofs`, `OccurrenceAckProofs` | `AlertPersistence` |
| backfill sink | `sim/sink.ts` | `SinkSteps`, `SinkProofs`, `SinkRefinement`, `SinkRecordProofs` | `BackfillSink` |
| write-behind telemetry | `persistence.ts` | `TelemetrySteps`, `TelemetryProofs`, `TelemetryOrderProofs`, `TelemetryLossProofs` | `TelemetryWriter` |
| availability report | `availabilityPipeline.ts`, `telemetryRollup.ts`, `persistence.ts` | `AvailabilitySteps`, `AvailabilityProofs`, `AvailabilityPlanProofs`, `AvailabilityRowProofs` | `AvailabilityReport` |
| MongoDB supervisor | `mongoConnection.ts` | `MongoSteps`, `MongoProofs` | `MongoConnection` |
| migrations | `migrations/`, `persistence.ts` | `MigrationSteps`, `MigrationProofs`, `MigrationSetupProofs` | `MigrationRunner` |
| scheduled reports | `reports/scheduler.ts` | `SchedulerSteps`, `SchedulerProofs` | `ReportScheduler` |
| login lockout | `auth/service.ts`, `persistence.ts` | `LockoutSteps`, `LockoutProofs`, `LockoutOverlapProofs` | `LoginLockout` |

## What turned out false, and when it holds

Several properties the code or its comments suggest hold only under a condition. Each has a lemma with an input on which it fails, and the main theorem carries the condition.

- An editor is shown the configuration in effect, under the version of the text on disk. When a load reverted the file the two differ, and a save under that version replaces a text nobody saw (`BrokenTextIsOverwrittenUnseen`). Every later save under the version of a read overwrites only what the read showed if and only if the read showed what is in the text its version names (`SavesSpareTheUnseenIff`); the config status names exactly the files of which it did not (`StatusNamesTheHidden`).
- Event keys are `deviceId:alertId`, and device ids may contain colons. Two ids can share a key exactly when one followed by a colon starts the other (`KeysCollideIffIdsExtend`); for every such pair there is a fault-free run that loses an occurrence (`CollidingIdsLoseAnOccurrence`) and one on which the backfill and the live path differ (`CollidingIdsDiverge`).
- `dedupeAlerts` keys on id, severity and title, so a vehicle's alert list may repeat an id; then `alert.created` is emitted twice for it. The events of a change alternate exactly when the appearing and the vanishing alerts have distinct ids (`ReplayChange`, and `RepeatedIdIsCreatedTwice` for a vehicle's first frame).
- The offline sweep counts accepted frames, not arriving ones, so a vehicle can be judged offline while it reports (`LateFramesAreNotHeard` is an instance with the default settings). Over every run the frames such a verdict overlooks were dropped as late and arrived less than twice the clock tolerance into the window (`VerdictsTrailArrivals`). For one vehicle's live frames every verdict rests on a window without arrivals if and only if no frame is overlooked, a condition on stamps, arrivals and queueing alone (`VerdictsRestOnArrivalsIff`); for frames taken as they arrive, if and only if no trusted stamp goes back (`VerdictsRestIffStampsAdvance`).
- `MONGO_BUFFER_LIMIT` has no lower bound. The drop counter is exact if and only if the limit is not negative or nothing was dropped (`CounterIsExactIff`). Every interleaving keeps the buffer in order if and only if both inserts and flushes go one at a time or the limit is at most one (`OrderNeedsBothIff`).
- A sliced availability report differs from the single pass where a frame is stamped past the horizon. For any disjoint stretches read from raw frames, with summarised hours that stand for the rest, a vehicle and bucket gets the same row if and only if none of its frames disturbs: one online, within a gap of the horizon, in an inner stretch, whose successor past the horizon is read by one of the two queries only (`SlicedAgreesIff`, and `PlannedReportIff` for the stretches and hours the planner chooses). `FutureFrameDisturbs` is an instance.
- The runner's comment says a fresh database starts at 0 and runs every migration. A connect creates the core collections first, so every database without markers is taken for an old one and its first migration never runs (`InterruptedConnectsConverge`). Whatever migrations follow, that does no harm if and only if the first `up` would change nothing (`SkippingTheFirstIsHarmlessIff`), as the shipped one does (`ShippedConnectsConverge`). The runner alone also skips a first migration that dies after creating a core collection (`EarlyCoreCollectionIsBaselined`).
- `seenTiming` outlives a deleted schedule: one created again with its old id and time is sent at once when its time is past, although the comment above the map promises otherwise (`RecreatedScheduleIsSentAtOnce`).
- Wrong passwords tried one after another cost at most the threshold per started window (`GuessesAreRateLimited`). Overlapping attempts cost more than the threshold plus those in flight: a lock written late can end the current one, and another batch goes through (`LateLocksLetABatchThrough`). With at most `k` in flight and a threshold `t` a window costs at most `k * (t - 1) + k * (k + 1) / 2` checks (`OverlappingGuessesAreLimited`, `BatchesAdd`), and that instance reaches it.
- An acknowledgement given while the database is detached stays in the in-memory mirror, and no sync stores it (`EarlyAcknowledgementsAreNotStored` is an instance). One that is answered "found" and changes what is stored lasts if and only if it was given while attached (`AcknowledgementsLastIff`).

## Model

| member | source | states |
|---|---|---|
| `ConfigMergeProofs.ConflictIffClash` | backend/src/configMerge.ts:71-144 | For every spec and every base, ours and theirs, the merge conflicts if and only if some unit (list entry, record key, nested entry) differs pairwise on all three sides |
| `ConfigMergeProofs.CarriesBothSides` | backend/src/configMerge.ts:71-144 | Each unit of an accepted merge is our change, their change, or what nobody changed |
| `ConfigMergeProofs.MergeNeverOverwritesBlindly` | backend/src/configMerge.ts:71-144 | Where the merge departs from theirs, theirs is what the editor read |
| `ConfigMergeProofs.MergeKeepsIdsDistinct` | backend/src/configMerge.ts:81-133 | Merging lists with one entry per id gives a list with one entry per id, at every depth |
| `ConfigMergeProofs.MergedListOrder` | backend/src/configMerge.ts:101-113 | The surviving entries keep their order in theirs, followed by our additions in our order |
| `ConfigMergeProofs.MergeSymmetric` | backend/src/configMerge.ts:71-144 | Swapping the two editors conflicts on the same inputs and gives the same value per unit |
| `ConfigMergeProofs.RemergeIsIdempotent` | backend/src/configMerge.ts:71-144 | Merging our edit into the merged result returns it unchanged, order included |
| `ConfigMergeLoops.IndexById` | backend/src/configMerge.ts:86-100 | The id index maps each id to its entry, and is refused exactly when an entry has no id or repeats one |
| `ConfigMergeLoops.MergeListLoop` | backend/src/configMerge.ts:81-113 | The list loops compute the list merge |
| `ConfigMergeLoops.MergeRecordLoop` | backend/src/configMerge.ts:115-133 | The record loop computes the record merge |
| `ConfigMergeLoops.MergeWithLoop` | backend/src/configMerge.ts:135-144 | The dispatch over the spec computes the merge, recursively |
| `ConfigProofs.LoadIsolatesTheCulprit` | backend/src/configRegistry.ts:1026-1082 | A load takes the files as they are if they load, else reverts the first single file whose revert alone helps, else every changed file; what it does not revert is in effect as on disk |
| `ConfigProofs.LastGoodIsAFallback` | backend/src/configRegistry.ts:1026-1082 | If the last-good texts load together, every load succeeds, whatever is on disk |
| `ConfigProofs.CommitSavesWhatIsInEffect` | backend/src/configRegistry.ts:994-1115 | After every committed load the last-good texts are exactly the texts in effect, and they load together |
| `ConfigProofs.FirstLoadProtects` | backend/src/configRegistry.ts:1085-1115 | One successful load establishes the protected state from any state |
| `ConfigProofs.NoLaterLoadFails` | backend/src/configRegistry.ts:1401-1418 | After one success no sequence of hand edits, guarded writes, uploads, reloads and restarts can make a later load fail |
| `ConfigProofs.ReloadIsStable` | backend/src/configRegistry.ts:1401-1418 | A second reload with nothing edited in between leaves the same configuration in effect |
| `ConfigProofs.WriteIsAllOrNothing` | backend/src/configRegistry.ts:1441-1478 | A save either puts the written text on disk, in effect and in last-good, touching no other file, or changes nothing |
| `ConfigProofs.UploadIsAllOrNothing` | backend/src/configRegistry.ts:1928-1974 | An asset upload either takes effect or leaves the assets and files as they were |
| `ConfigProofs.NoBlindOverwrite` | backend/src/configRegistry.ts:1441-1515 | A successful save with an expected version changes a unit from its on-disk value only if that value is the one in the text the version names |
| `ConfigProofs.NoBlindOverwriteOverRuns` | backend/src/configRegistry.ts:1441-1515 | The same for every save along any run; a save that is refused leaves the state as it was |
| `ConfigSaveProofs.SavedCarriesTheEdit` | backend/src/configRegistry.ts:1441-1515 | A guarded save answered "saved" leaves on disk, unit by unit, the editor's value where it differs from the version it names, and elsewhere what was on disk |
| `ConfigSaveProofs.SavesCarryEditsOverRuns` | backend/src/configRegistry.ts:1441-1515 | The same for every guarded save along any run; one answered otherwise changes nothing |
| `ConfigSaveProofs.ContestedSaveAnswers` | backend/src/configRegistry.ts:1441-1515 | After any run a save over somebody else's is merged if and only if its version is among the last twenty texts committed since the start, both versions can be read, and no unit was changed on both sides differently; it is saved if and only if moreover the result passes the parser and takes effect, and else a conflict or a rollback |
| `ConfigSaveProofs.UncontestedSaveAnswers` | backend/src/configRegistry.ts:1441-1478 | A save without a version, or under the one on disk, is saved if the value takes effect and rolled back if not |
| `ConfigSaveProofs.KnownVersionsAreTheLast20` | backend/src/configRegistry.ts:1091-1100 | Over any run the history holds a text if and only if it is one of the last twenty committed since the start |
| `ConfigSaveProofs.FileUnits` | backend/src/configMerge.ts:31-44 | The units of each file: entries by `deviceId`, `formationId`, `sceneId` or `code`, rules by name, notify channels and schedules by `id`, groups by name, other fields whole |
| `ConfigSaveProofs.ListsMergeByTheirIds` | backend/src/configMerge.ts:86-100 | A list is merged entry by entry if and only if every entry has a string or number as its id and no two have the same |
| `ConfigSaveProofs.EntryIsFoundByItsId` | backend/src/configMerge.ts:86-100 | An entry is found at an id if and only if the list has one with that string or number under the key |
| `ConfigSaveProofs.UploadAnswers` | backend/src/configRegistry.ts:1928-1974 | An upload is refused before the first load, kept if the files load with it and no file is newly reverted, and rolled back otherwise |
| `ConfigSaveProofs.FailedReloadKeepsEverything` | backend/src/configRegistry.ts:1401-1418 | A reload that fails keeps all that is in effect and reports one general issue |
| `ConfigSaveProofs.WhatCanBeReverted` | backend/src/configRegistry.ts:1026-1082 | A changed file can be reverted if and only if it has a last-good copy or is one of the four optional files |
| `ConfigShownProofs.SavesSpareTheUnseenIff` | backend/src/configRegistry.ts:1420-1515 | Every save under the version of a read, after any further steps, overwrites only what the read showed, if and only if the read showed, text or unit by unit, what is in the text its version names |
| `ConfigShownProofs.StatusNamesTheHidden` | backend/src/configRegistry.ts:1085-1109 | After a load the config status names a file if and only if a read of it shows another text than its version's |
| `ConfigShownProofs.BrokenTextIsOverwrittenUnseen` | backend/src/routes/rules.ts:24-41 | A rules file broken by hand and reverted at a reload is read, saved unchanged under the version given, and replaced unseen, in a world that meets all that `SavesSpareTheUnseenIff` asks |
| `ConfigRegistry.ConfigRegistry.LoadWithFallback` | backend/src/configRegistry.ts:1026-1082 | The loop over attempts finds the load the specification names |
| `ConfigRegistry.ConfigRegistry.CommitLoaded` | backend/src/configRegistry.ts:1085-1115 | Updates versions, history, last-good copies and the configuration in effect as one commit |
| `ConfigRegistry.ConfigRegistry.SaveLastGood` | backend/src/configRegistry.ts:994-1014 | Saves the text of every file in effect as it is on disk, drops the copy of an absent one, and leaves the copies of reverted files alone |
| `ConfigRegistry.ConfigRegistry.ReloadInternal` | backend/src/configRegistry.ts:1401-1418 | Load and commit, or keep what is in effect |
| `ConfigRegistry.ConfigRegistry.MergeConcurrentEditNow` | backend/src/configRegistry.ts:1486-1515 | Finds the text the editor read in the bounded history, merges, and re-parses the result; or refuses |
| `ConfigRegistry.ConfigRegistry.WriteConfigAndApply` | backend/src/configRegistry.ts:1441-1478 | A guarded save, rolled back when the written files do not load |
| `ConfigRegistry.ConfigRegistry.StoreSceneAsset` | backend/src/configRegistry.ts:1928-1974 | An upload, rolled back when the configuration does not load with it |
| `FleetInvariantProofs.RunsStayConsistent` | backend/src/store.ts:341-450 | Over every run under a fixed roster the raw, configured and last-heard maps have the same keys, frame-stamp keys are among them, snapshots sit under their own ids, and undeclared devices never exceed the cap |
| `FleetInvariantProofs.EvictsExactlyTheSilentUndeclared` | backend/src/store.ts:400-450 | Eviction forgets exactly the undeclared devices silent for longer than the retention |
| `FleetInvariantProofs.DeclaredDevicesStay` | backend/src/store.ts:400-450 | No step but a whole-fleet replace removes a declared device |
| `FleetInvariantProofs.PayloadKeepsConsistent` | backend/src/store.ts:670-803 | A frame or a whole fleet keeps the fleet invariant |
| `FleetInvariantProofs.StatusKeepsConsistent` | backend/src/store.ts:805-834 | A status frame keeps the fleet invariant |
| `FleetEventProofs.ReplayChange` | backend/src/store.ts:899-954 | The events of one device's change take a listener from the old snapshot to the new one and touch no other device; they alternate if and only if the appearing and the vanishing alerts have distinct ids |
| `FleetEventProofs.ReplayClosing` | backend/src/store.ts:619-627 | A departing device's closing events clear all its alerts and nothing else |
| `FleetStreamRuns.StreamAgreesWithState` | backend/src/store.ts:619-1237 | A listener present since a mutation boundary that replays the stream holds, after every later frame, status, sweep, eviction or replace, exactly the store's devices, online flags and active alert ids |
| `FleetStreamRuns.StreamAlternates` | backend/src/store.ts:899-954 | Along such a run created and cleared alternate per alert, and online with offline, where no alert list repeats an id |
| `FleetStreamRuns.RepeatedIdIsCreatedTwice` | packages/shared/src/normalizeHelpers.ts:141 | A vehicle's first live frame keeps the stream alternating if and only if its alerts, as deduplication leaves them, have distinct ids; otherwise one alert is created twice |
| `FleetStreamRuns.EvictionTracks` | backend/src/store.ts:400-450 | An eviction's clears and its snapshot tell a listener exactly which devices are gone |
| `FleetEvidenceProofs.RunsRestOnEvidence` | backend/src/store.ts:1161-1224 | With a clock that never goes back, each offline verdict rests on a whole threshold of silence, of unbroken source connection and of sweeps without an over-long gap; each accepted live stamp is within the tolerance of its arrival and not below the last one, and a frame is dropped as late only if it arrives within twice the tolerance of the last accepted one |
| `FleetEvidenceProofs.StartIsEvidenced` | backend/src/store.ts:502-548 | The store as restored at start satisfies that invariant |
| `FleetEvidenceProofs.LiveStampsNeverDecrease` | backend/src/store.ts:722-741 | Two live frames accepted for a device not forgotten in between have non-decreasing stamps |
| `FleetEvidenceProofs.SweepJudgesBySilenceAlone` | backend/src/store.ts:1161-1224 | After a sweep on a settled source a device is online if and only if it was and was heard within the threshold; any other sweep judges nothing |
| `FleetArrivalProofs.VerdictsTrailArrivals` | backend/src/store.ts:722-741 | Over every run, of the frames that arrived in the window of an offline verdict, all were dropped as late, and none arrived at or after twice the tolerance into it |
| `FleetArrivalProofs.VerdictsRestOnArrivalsIff` | backend/src/store.ts:722-741 | For one vehicle's live frames, every verdict of a sweep after any part of them rests on a window without arrivals, if and only if no frame is overlooked: behind an earlier stamp, arrived after its newest predecessor, an online one, was taken, and queued no longer than the window |
| `FleetArrivalProofs.VerdictsRestIffStampsAdvance` | backend/src/store.ts:1161-1190 | For online frames taken as they arrive, one after another, that is so if and only if no trusted stamp goes back in arrival order |
| `FleetOnsetProofs.OnsetsSurvive` | backend/src/normalize.ts:503-512 | An alert present before and after a frame, status or offline verdict keeps its onset, whatever time the new report gives |
| `FleetRecordProofs.FrameIsRecorded` | backend/src/store.ts:670-803 | A frame is taken if and only if its id is allowed and known, declared or within the cap, and it is not late; then the vehicle has its liveness, its trusted stamp, its alerts with their onsets and a lingering low-battery alert, and nothing else changes; otherwise nothing does |
| `FleetRecordProofs.StatusIsRecorded` | backend/src/store.ts:805-834 | A status frame that is admitted leaves the vehicle as it says, stamped and heard now, each alert under its onset; any other changes nothing |
| `FleetRecordProofs.FleetIsReplaced` | backend/src/store.ts:670-803 | A whole-fleet payload leaves exactly the vehicles of its frames that are admitted, in frame order while there is room, each as its frame says |
| `FleetRecordProofs.SweepMarksTheSilent` | backend/src/store.ts:1161-1224 | A sweep on a settled source takes exactly the silent vehicles offline, keeps their other alerts, and adds the offline alert if and only if the rule raises it; no other snapshot changes |
| `FleetRecordProofs.SweepLogsItsVerdicts` | backend/src/store.ts:1161-1224 | The history the evidence theorems speak of has a verdict for exactly those vehicles |
| `FleetRecordProofs.SweepNotesWhenItRan` | backend/src/store.ts:1161-1190 | A sweep notes when it ran; after a gap with the source connected it takes the source to be up from now on, and changes nothing else about it |
| `FleetRecordProofs.SourceIsAsLastChanged` | backend/src/store.ts:193-199 | Over any run the source is up if and only if the last change was a connection, or there was none and it was up |
| `FleetRecordProofs.StartRestoresDeclared` | backend/src/store.ts:502-548 | A start restores exactly the stored declared vehicles, each as last stored and heard no later than now |
| `FleetStore.DashboardStore.SetSource` | backend/src/store.ts:193-199 | The source-up time is set once per connection and cleared on loss |
| `FleetStore.DashboardStore.Admit` | backend/src/store.ts:341-388 | Admission answers for the map being built, as the specification does |
| `FleetStore.DashboardStore.ApplyPayloadFrames` | backend/src/store.ts:670-803 | The frame loop, with admission, order check, merge, events and replace, is the payload step |
| `FleetStore.DashboardStore.ApplyStatusFrame` | backend/src/store.ts:805-834 | A status frame is the status step |
| `FleetStore.DashboardStore.EmitChangeEvents` | backend/src/store.ts:899-954 | Emits the change's events in the specified order |
| `FleetStore.DashboardStore.CloseAlertsOf` | backend/src/store.ts:619-627 | Emits one clear per active alert of a departing device |
| `FleetStore.DashboardStore.EvaluateOfflineDevices` | backend/src/store.ts:1161-1237 | The sweep, with its gap detection, judging loop and eviction, is the sweep step |
| `FleetStore.DashboardStore.EvictSilentDevices` | backend/src/store.ts:400-450 | The two eviction loops remove what the specification names and emit its events |
| `QueueProofs.RunsStaySound` | backend/src/store.ts:218-297 | Over any interleaving of arrivals with a running mutation: each is settled exactly once, runs keep arrival order, only sheddable ones are shed, oldest first, arrivals equal run plus running plus shed plus waiting, and a non-empty queue has a pump |
| `QueueProofs.ShedsTheOldest` | backend/src/store.ts:269-297 | A line over its limit sheds its first sheddable entries, as many as it is over or as there are, oldest first; the rest keep their order |
| `QueueProofs.ArrivalJoinsTheLine` | backend/src/store.ts:218-243 | An arrival joins the end of the line; the line sheds if and only if it is then over its limit and holds something sheddable, the oldest, as many as it is over; an idle pump starts the oldest left |
| `QueueProofs.NothingIsShedWithinTheLimit` | backend/src/store.ts:269-297 | A run in which no arrival finds the line full sheds nothing |
| `QueueProofs.Drains` | backend/src/store.ts:246-258 | Without arrivals everything in the line runs, in order, and nothing is shed |
| `IngestQueue.MutationQueue.Push` | backend/src/store.ts:218-243 | Enqueue, shed, and start the pump if it is idle |
| `IngestQueue.MutationQueue.DropOverflow` | backend/src/store.ts:269-297 | The in-place shedding loop sheds what the specification does |
| `IngestQueue.MutationQueue.TakeTurn` | backend/src/store.ts:246-258 | The pump takes the oldest entry or goes idle |
| `OccurrenceProofs.RunsKeepOneActivePerKey` | backend/src/persistence.ts:1421-1544 | However syncs fail, no run leaves two active documents with one event key |
| `OccurrenceProofs.RunsKeepHistory` | backend/src/persistence.ts:1421-1630 | Over any run closed documents never change, and an active one keeps its key and onset, and its acknowledgement unless its own key is acknowledged or un-acknowledged |
| `OccurrenceProofs.DoneWritesTheActiveSet` | backend/src/persistence.ts:1477-1534 | After a sync that succeeds the device's active documents are exactly the reported keys |
| `OccurrenceProofs.DoneWritesWhatWasReported` | backend/src/persistence.ts:1477-1515 | The active document of each reported alert then says what was reported, as of the sync's clock |
| `OccurrenceProofs.SyncClosesOnlyStale` | backend/src/persistence.ts:1517-1534 | A sync, whole or failed, closes a document only if it is the device's and not reported, stamped with its own clock |
| `OccurrenceProofs.ReportedDevicesStaySettled` | backend/src/persistence.ts:1421-1630 | Once reported, a device either waits for a re-sync or its active documents are exactly its in-memory active set, after every later step, if no other id collides with its own |
| `OccurrenceProofs.KeysCollideIffIdsExtend` | backend/src/persistence.ts:1439-1446 | Two devices can share an event key if and only if one id followed by a colon starts the other |
| `OccurrenceProofs.CollidingIdsLoseAnOccurrence` | backend/src/persistence.ts:1475-1515 | For every colliding pair a run without faults breaks that agreement |
| `OccurrenceProofs.ReReportCarriesOver` | backend/src/persistence.ts:1428-1465 | In memory a re-report carries the acknowledgement over, and the onset unless the alert brings one |
| `OccurrenceProofs.ResyncKeepsMirroredOnsets` | backend/src/persistence.ts:1551-1570 | An occurrence that began during an outage is stored with its own onset |
| `OccurrenceProofs.ResyncPassIsARun` | backend/src/persistence.ts:1551-1570 | A pass of the retry timer is a run of re-syncs, so what runs keep, a pass keeps |
| `OccurrenceProofs.WillingDatabaseClearsTheBacklog` | backend/src/persistence.ts:1551-1570 | A pass whose syncs succeed leaves none of its devices waiting and adds none |
| `OccurrenceReplayProofs.SyncMirrorsTheReport` | backend/src/persistence.ts:1428-1465 | Whatever becomes of its writes, a sync mirrors each alert with its id, detail and time, heard now, under its own onset if it brings one or is new |
| `OccurrenceReplayProofs.ResyncStoresTheMirror` | backend/src/persistence.ts:1551-1570 | After a re-sync that succeeds each mirrored entry's active document carries its alert, detail and time and the re-sync's clock, and a new one its onset |
| `OccurrenceReplayProofs.OutagesLoseNoReport` | backend/src/persistence.ts:1421-1570 | A report that meets an outage or a failing write is, after any further steps that do not report the device again or send it away, still mirrored as it was made and waiting, or stored as it was made |
| `OccurrenceReplayProofs.DepartedLeaveNothing` | backend/src/persistence.ts:1517-1544 | A departure that is carried out leaves nothing active, mirrored or waiting for the device |
| `OccurrenceAckProofs.AcknowledgementsLastIff` | backend/src/persistence.ts:1583-1630 | An acknowledgement answered "found" is on the occurrence's document after every later step that leaves its key alone, if and only if it was given while attached, or repeats what is stored |
| `OccurrenceAckProofs.RunsStoreUnacked` | backend/src/persistence.ts:1500-1510 | Whatever is stored of a key later starts unacknowledged, and stays so until the key is acknowledged |
| `OccurrenceReplayProofs.DetachedAckIsMirrored` | backend/src/persistence.ts:1583-1640 | Detached, an acknowledgement changes the one mirrored entry it finds, and nothing stored |
| `AlertPersistence.Persistence.UpsertAlerts` | backend/src/persistence.ts:1421-1544 | Mirror, upserts, closing update and pending mark, for every outcome |
| `AlertPersistence.MirrorAlerts` | backend/src/persistence.ts:1428-1465 | Builds the mirror with carried acknowledgements and onsets |
| `AlertPersistence.Persistence.ResyncPendingAlerts` | backend/src/persistence.ts:1551-1570 | Replays the mirror device by device and stops at the first that still fails |
| `AlertPersistence.Persistence.SetAcknowledgement` | backend/src/persistence.ts:1583-1640 | Acknowledges the active occurrence in the database, or in the mirror without one, and answers whether there was one |
| `SinkRefinement.BackfillRefinesReconciliation` | backend/sim/sink.ts:116-259 | For any calls, re-fires and occurrences already stored included, the documents after the hand-over equal those of the live reconciliation as a multiset of key, onset, active flag and clear time |
| `SinkRefinement.LiveRunIsAPersistenceRun` | backend/src/persistence.ts:1421-1544 | The live history compared with is a legal run of the occurrence store with every sync succeeding |
| `SinkRefinement.CollidingIdsDiverge` | backend/sim/sink.ts:167-228 | For every colliding pair of ids there are calls on which the two histories differ |
| `SinkRecordProofs.OpenIsWhatWasReported` | backend/sim/sink.ts:167-228 | After a call the occurrences open for the vehicle are exactly the reported ones, each with what was reported, and no other vehicle's changed |
| `SinkRecordProofs.EndedIsClosed` | backend/sim/sink.ts:205-228 | An occurrence that ends is closed at the call's time and acknowledged by the staff unless someone had, in the buffer or in the collection |
| `BackfillSink.BackfillSink.Connect` | backend/sim/sink.ts:116-133 | Opens what the collection holds active for the shard's vehicles |
| `BackfillSink.BackfillSink.UpsertAlerts` | backend/sim/sink.ts:167-228 | Refreshes, opens and closes occurrences in memory, in the database or in the buffer, and flushes a full buffer |
| `BackfillSink.BackfillSink.FlushAlerts` | backend/sim/sink.ts:377-383 | Moves the buffered closed occurrences to the collection |
| `BackfillSink.BackfillSink.Finish` | backend/sim/sink.ts:235-252 | Flushes, then upserts every open occurrence the database does not hold |
| `TelemetryProofs.RunsConserve` | backend/src/persistence.ts:1192-1413 | With any number of inserts and flushes in flight and any failures, every accepted document is written, pending, in flight or dropped, in one place more for each time it landed unseen |
| `TelemetryProofs.KnownOutcomesPlaceEachOnce` | backend/src/persistence.ts:181-197 | When every outcome is known each accepted document is in exactly one place |
| `TelemetryProofs.CounterIsExactIff` | backend/src/persistence.ts:1324-1335 | The buffer never exceeds its limit, and the drop counter is exact if and only if the limit is not negative or nothing was dropped |
| `TelemetryOrderProofs.SerialRunsKeepOrder` | backend/src/persistence.ts:1368-1413 | With one insert and one flush in flight the buffer stays in arrival order through every failure |
| `TelemetryOrderProofs.OrderNeedsBothIff` | backend/src/persistence.ts:1192-1413 | Every interleaving that keeps inserts, flushes, both or neither to one at a time leaves the buffer in arrival order, if and only if it keeps both or the limit is at most one |
| `TelemetryLossProofs.BufferedFramesPushOutTheOldest` | backend/src/persistence.ts:1324-1335 | A frame that is buffered goes to the end, and the buffer keeps its newest documents up to the limit and loses the others |
| `TelemetryLossProofs.FailedFlushesAreCutFirst` | backend/src/persistence.ts:1388-1413 | What did not land of a failed flush goes to the front, and the buffer again keeps the newest up to the limit |
| `TelemetryLossProofs.SerialRunsLoseTheOldest` | backend/src/persistence.ts:1324-1413 | With one insert and one flush at a time, every document given up along a run is older than every one still buffered |
| `TelemetryWriter.UnwrittenDocuments` | backend/src/persistence.ts:181-197 | Keeps exactly the documents the error lists, or the whole batch when nothing is known |
| `TelemetryWriter.Writer.BufferTelemetry` | backend/src/persistence.ts:1324-1335 | Appends, cuts the oldest past the limit and counts them |
| `TelemetryWriter.Writer.WriteTelemetry` | backend/src/persistence.ts:1192-1208 | A frame goes to the buffer when disconnected, else in flight |
| `TelemetryWriter.Writer.InsertRejected` | backend/src/persistence.ts:1209-1224 | A failed insert is buffered, whether or not it landed |
| `TelemetryWriter.Writer.FlushRejected` | backend/src/persistence.ts:1388-1413 | A failed flush re-queues what did not land ahead of what arrived, cut to the limit |
| `AvailabilityProofs.SlicedEqualsSinglePass` | backend/src/persistence.ts:1973-2004 | For any cut of the window into consecutive stretches, inner ones read with their lookahead, merging the rows gives every vehicle and bucket the row of one query over the window, and no other row |
| `AvailabilityProofs.QueryIsDirect` | backend/src/reports/availabilityPipeline.ts:55-104 | The pipeline's match, window and second match give each selected frame its successor in the whole collection, if the query reads that far |
| `AvailabilityProofs.OnlineTimeFitsTheWindow` | backend/src/reports/availabilityPipeline.ts:93-104 | A vehicle's online time over all buckets fits between the window's start and the horizon |
| `AvailabilityProofs.ContinuousFramesCoverEverything` | backend/src/reports/availabilityPipeline.ts:93-104 | A vehicle always online and never silent for longer than the gap is online from its first frame to the horizon |
| `AvailabilityProofs.GroupingKeepsTotals` | backend/src/reports/availabilityPipeline.ts:105-126 | Grouping changes no bucket's total and no bucket's presence |
| `AvailabilityRowProofs.QueryRowsDescribe` | backend/src/reports/availabilityPipeline.ts:55-126 | A query reports a vehicle and bucket exactly when it selects frames of theirs; the row counts them and the online ones, adds up the time each vouches for, and gives count, sum and least of their states of charge |
| `AvailabilityRowProofs.MergedRowsDescribe` | backend/src/reports/availabilityPipeline.ts:187-210 | A merged row describes in the same way the frames behind all of its rows together |
| `AvailabilityRowProofs.ServedRowsDescribe` | backend/src/persistence.ts:1973-2004 | A served report's rows describe the frames behind the summarised hours and those the stretches select |
| `AvailabilityProofs.SlicedAgreesIff` | backend/src/persistence.ts:1973-2004 | For any disjoint stretches, gaps included, and any frames: where the summarised hours' rows stand for the frames outside the stretches, a vehicle and bucket gets the row of the single pass, if and only if no frame of theirs disturbs |
| `AvailabilityPlanProofs.PlanSplitsTheWindow` | backend/src/reports/telemetryRollup.ts:210-250 | The planner's stretches are disjoint, in order and end with the horizon, its hours are summarised and end before it, and each time of the window is in exactly one stretch or hour |
| `AvailabilityPlanProofs.PlanServesWhatItCan` | backend/src/reports/telemetryRollup.ts:210-250 | An hour is served from the rollup if and only if it is summarised, starts in the window and ends before the horizon |
| `AvailabilityPlanProofs.PlannedReportIff` | backend/src/persistence.ts:1967-2004 | Whichever hours are summarised, if the rollup's rows stand for the frames of the planned hours, a vehicle and bucket gets the row of one query over raw frames, if and only if no frame of theirs disturbs |
| `AvailabilityProofs.SlicingShifts` | backend/src/reports/availabilityPipeline.ts:93-126 | Against the single pass restricted to the frames inside the stretches, slicing changes no count, no state of charge and no row's presence, and the online time by exactly the frames' surplus |
| `AvailabilityProofs.FutureFrameDisturbs` | backend/src/persistence.ts:1988-2000 | A frame stamped past the horizon makes a sliced report differ |
| `AvailabilityReport.MergeAvailabilityRows` | backend/src/reports/availabilityPipeline.ts:187-210 | The grouping and folding loops give one row per vehicle and bucket with its total |
| `AvailabilityReport.FoldGroup` | backend/src/reports/availabilityPipeline.ts:195-210 | A single row passes untouched; several add up, with the smallest minimum |
| `AvailabilityReport.PlanAvailabilityWindow` | backend/src/reports/telemetryRollup.ts:210-250 | The loop over the window's hours makes that plan |
| `AvailabilityReport.AggregateSlices` | backend/src/persistence.ts:1973-2004 | Reads every planned stretch and merges its rows with those of the summarised hours |
| `MongoProofs.RunsStaySound` | backend/src/mongoConnection.ts:143-272 | Over every interleaving a started, running supervisor holds one session, or opens, or waits for one retry; every session opened is current or closed; after stop nothing is adopted or scheduled |
| `MongoProofs.StopIsFinal` | backend/src/mongoConnection.ts:149-166 | From a stop on it stays disconnected with every session closed |
| `MongoProofs.LateOpenIsClosed` | backend/src/mongoConnection.ts:168-198 | An open that resolves after the stop is closed at once and never adopted |
| `MongoProofs.AbandonedEventsChangeNothing` | backend/src/mongoConnection.ts:213-238 | A session once abandoned is never current again, and any later run ends as it would without that session's events |
| `MongoProofs.ConnectedAsLastHeard` | backend/src/mongoConnection.ts:213-238 | While a session is neither closed nor stopped it stays current, and is connected exactly as its last event said, whatever else happens |
| `MongoProofs.ClosedTopologyRecycles` | backend/src/mongoConnection.ts:223-262 | A closed topology costs the session, which is closed, and one retry is scheduled with one failure's delay more |
| `MongoProofs.ResolvedIsAdopted` | backend/src/mongoConnection.ts:168-198 | An open that resolves on a running supervisor is the new session, connected, with the failures forgotten |
| `MongoProofs.RunningCanReconnect` | backend/src/mongoConnection.ts:168-198 | A running supervisor without a session is at most a retry and a resolved open away from one |
| `MongoProofs.FailuresBackOff` | backend/src/mongoConnection.ts:248-262 | The n-th failure in a row schedules one retry at the n-th delay |
| `MongoProofs.DelaysGrowToTheCap` | backend/src/mongoConnection.ts:63-70 | Delays never shrink and stay between the first delay and the cap |
| `MongoProofs.DefaultDelays` | backend/src/mongoConnection.ts:52-70 | As configured the retries wait 2, 4, 8, 16 and then 30 seconds |
| `MongoConnection.MongoConnectionSupervisor.FinishOpen` | backend/src/mongoConnection.ts:168-198 | A resolved open is adopted, or closed when the supervisor has stopped |
| `MongoConnection.MongoConnectionSupervisor.HandleDownEvent` | backend/src/mongoConnection.ts:223-238 | A down event of the current session marks it, and a closed topology recycles it |
| `MongoConnection.MongoConnectionSupervisor.StopNow` | backend/src/mongoConnection.ts:149-166 | Cancels the retry, drops and closes the session |
| `MigrationProofs.InterruptedRunsConverge` | backend/src/migrations/runner.ts:75-125 | After any number of runs cut short before, inside or after an `up`, one completed run leaves the data of a clean run, each pending migration once in order, and exactly the markers 1 to latest |
| `MigrationProofs.NewerDatabasesAreRefused` | backend/src/migrations/runner.ts:91-101 | A database marked past the last known version is refused and not touched |
| `MigrationProofs.ShippedListIsCrashSafe` | backend/src/migrations/index.ts:16-86 | Every shipped `up` absorbs its own full or partial application, on any data |
| `MigrationProofs.ExpandUserFillsGaps` | backend/src/migrations/index.ts:25-46 | The user migration adds its fields and overwrites no value |
| `MigrationProofs.BackfillsFillGaps` | backend/src/migrations/index.ts:47-85 | The lockout and acknowledgement migrations add their fields and overwrite no value |
| `MigrationProofs.ExpandedUserHas` | backend/src/migrations/index.ts:25-46 | The value each field of an old user gets, and that no other field changes |
| `MigrationProofs.BackfilledRowsHave` | backend/src/migrations/index.ts:47-85 | The same for the lockout and acknowledgement fields |
| `MigrationProofs.ShippedMigratesRows` | backend/src/migrations/index.ts:16-86 | The whole list changes every user and alert that lacks a migration's first field so, row by row, and no other collection |
| `MigrationSetupProofs.InterruptedConnectsConverge` | backend/src/persistence.ts:360-377 | After any number of connects cut short in setting up or migrating, one whole connect leaves each pending migration once, in order, on the database as set up, and the markers 1 to latest; a database without markers never gets the first migration |
| `MigrationSetupProofs.SkippingTheFirstIsHarmlessIff` | backend/src/migrations/runner.ts:34-63 | Whatever migrations follow, skipping the first leaves the data of the whole list, if and only if its `up` would change nothing on the database as set up |
| `MigrationSetupProofs.ShippedConnectsConverge` | backend/src/migrations/index.ts:16-86 | From any database without markers the shipped connects end at the whole list's data and the markers 1 to 4 |
| `MigrationRunner.Database.EnsureMongoCollections` | backend/src/persistence.ts:398-441 | Creates the missing collections and touches no other |
| `MigrationRunner.Database.HighestMarker` | backend/src/migrations/runner.ts:15-23 | The highest recorded version, or 0 |
| `MigrationRunner.Database.BaselineIfPreexisting` | backend/src/migrations/runner.ts:43-63 | Records version 1 without its `up` exactly for an unmarked database with a core collection |
| `MigrationRunner.Database.RunMigrations` | backend/src/migrations/runner.ts:75-125 | The runner, cut wherever the step says, leaves what the specification says |
| `SchedulerProofs.SentAtMostOnceADay` | backend/src/reports/scheduler.ts:91-122 | Over any polls and edits with dates that do not go back, a schedule id is sent at most once per local date |
| `SchedulerProofs.NeverSentAtFirstSight` | backend/src/reports/scheduler.ts:100-117 | A report is sent only for a timing an earlier poll had seen enabled, unchanged in every poll that listed it since |
| `SchedulerProofs.SentTheDayItIsDue` | backend/src/reports/scheduler.ts:91-122 | A known schedule kept unchanged through a matching day is sent that day, once, if and only if some poll finds its time past and the date was not handled before |
| `SchedulerProofs.PollSendsIff` | backend/src/reports/scheduler.ts:91-122 | One poll sends a schedule if and only if it is enabled, for every day or this weekday, its minute has come, its timing was seen before and the date is not handled |
| `SchedulerProofs.SentOnlyWhenDue` | backend/src/reports/scheduler.ts:91-122 | Over any run a report was sent only by a poll that listed it enabled, on its weekday, its minute come and its timing seen before |
| `SchedulerProofs.WeeklyIsSentOnItsWeekday` | backend/src/reports/scheduler.ts:104-110 | A weekly schedule is sent only on dates of its weekday |
| `SchedulerProofs.KnownMeansSeenBefore` | backend/src/reports/scheduler.ts:94-102 | A timing is remembered if and only if the last poll that listed the id had it enabled with that timing |
| `SchedulerProofs.RecreatedScheduleIsSentAtOnce` | backend/src/reports/scheduler.ts:73-77 | A schedule deleted and created again past its time is sent at once |
| `ReportScheduler.ReportScheduler.Tick` | backend/src/reports/scheduler.ts:91-122 | The loop over schedules updates both maps and sends as specified |
| `LockoutProofs.GuessesAreRateLimited` | backend/src/auth/service.ts:145-178 | Wrong passwords tried in sequence over a time D, on an account in any state, cost at most threshold times (D / window, rounded down, plus one) checks |
| `LockoutProofs.LetInIff` | backend/src/auth/service.ts:145-178 | Along any run on any account an attempt is let in if and only if its password is right and no deadline given before it lies ahead, and it leaves no failure counted and no lock |
| `LockoutProofs.AttemptIsAnswered` | backend/src/auth/service.ts:145-178 | One attempt's answer, count, lock and report, told by the fields |
| `LockoutOverlapProofs.OverlappingGuessesAreLimited` | backend/src/auth/service.ts:145-178 | With at most so many attempts in flight, settling in any order and as late as they like, wrong passwords cost at most the batches' checks per started window |
| `LockoutOverlapProofs.BatchesAdd` | backend/src/auth/service.ts:165-177 | The batches of a window hold `k * (t - 1) + k * (k + 1) / 2` checks, the threshold alone for one attempt at a time |
| `LockoutOverlapProofs.LateLocksLetABatchThrough` | backend/src/persistence.ts:841-854 | A lock written late ends the current one, and a window holds as many checks as the bound allows |
| `LockoutProofs.EveryLockIsReportedOnce` | backend/src/auth/service.ts:165-177 | In sequence each lock is reported by exactly one attempt |
| `LockoutProofs.OverlappingReportsNeedARestart` | backend/src/persistence.ts:810-870 | Between two overlapping attempts told the same count, late locks and resets included, the count has restarted, so a lock is not reported twice |
| `LockoutProofs.LockedUntilTheDeadline` | backend/src/auth/service.ts:150-154 | A lock refuses every attempt before its deadline and looks at no password |
| `LoginLockout.AuthService.IncrementLoginFailures` | backend/src/persistence.ts:810-840 | Counts one failure, afresh after an expired lock |
| `LoginLockout.AuthService.Authenticate` | backend/src/auth/service.ts:145-178 | Refuses, checks, counts, locks and reports as specified |

## Left out

- HTTP routes, WebSocket transport, MQTT, mail, metrics, logging and both frontends: plumbing over libraries.
- `buildSnapshot` and the parsers: an abstract predicate says which texts load together, and parsers are normalizers that keep a value that is already normal. A text stands for its own version, so hash collisions are not modelled, nor are error messages and labels.
- Last-good writes are taken to succeed, and assets to change only through uploads; hand edits of the JSON files are arbitrary steps.
- NoBlindOverwriteOverRuns: the base of a save is the text its version names, as in the code; `SavesSpareTheUnseenIff` says when that is what the editor was shown.
- SavesSpareTheUnseenIff: takes a configuration to load only where each mergeable file passes the parser its editor uses, and to depend on nothing else in the file, and a saved value to read back as it was. What a read shows is the text in effect through that parser; the getters' own formatting is left out.
- WriteConfigAndApply: disk writes succeed. A write that fails changes nothing; a restore that fails leaves what a hand edit of the file would, which is a step of every run.
- StoreSceneAsset: an asset's write, and its restore when the configuration does not load with it, succeed.
- NoBlindOverwrite: covers files with a merge spec and a submitted value that is normal, as the routes submit it; a file without a spec is refused on any concurrent edit.
- SavedCarriesTheEdit: for a submitted value and parsers as `NoBlindOverwrite` has them.
- MergeWithLoop: JavaScript's inherited keys (`__proto__`) and the key order of merged objects are not modelled.
- The validation and naming of scene assets: the stored path is a parameter.
- RunsStayConsistent: the roster is fixed over a run; reloading the store's configuration is not modelled.
- Rule evaluation, debounce details and seeding: abstract or reduced to what the onset and stream claims need.
- StreamAgreesWithState: a whole-fleet payload is taken to name each device once, and so `FleetIsReplaced`.
- StreamAlternates: needs alert lists with distinct ids, as `ReplayChange` shows.
- RunsRestOnEvidence: heard means a frame was accepted; `VerdictsTrailArrivals` and `VerdictsRestOnArrivalsIff` say how that relates to arrivals.
- VerdictsRestOnArrivalsIff: the vehicle is new to the fleet and sends live frames only; the source and earlier sweeps are arbitrary.
- UpsertAlerts: the writes of one device's sync do not interleave with another sync of the same device, and parallel upserts of one key land one after another.
- ReportedDevicesStaySettled: assumes the MongoDB mode; in the in-memory mode there is nothing to catch up with.
- OutagesLoseNoReport: a report's alerts have distinct ids, and no other device's id collides with the device's; a repeated id is stored once, with what the last upsert to land wrote.
- BackfillRefinesReconciliation: the sink's acknowledgements, last-seen times and details differ from the live ones by design and are not compared; the notify log, the audit log, telemetry and the order of documents are left out, and writes succeed.
- RunsConserve: the in-memory telemetry ring, the rollup's invalidation and `device_latest` are left out. Re-sync of latest snapshots can write an older snapshot after a newer one and is not claimed to converge.
- ServedRowsDescribe: which frames stand behind a summarised hour's row is given.
- PlannedReportIff: takes the rollup's rows for a planned hour to be what its frames add in one pass; how the rollup summarises them is left out. The collection has one fixed order among frames with equal stamps, and sums are exact reals. The sort of the result by name and the rounding in `mapAvailabilityRows` are left out.
- FinishOpen: a restart after stop, and a session whose close never ends, are left out; `start` is called once.
- InterruptedRunsConverge: the markers found are 1 to some version, as the runner itself leaves them; indexes, TTLs, marker names and times are left out.
- InterruptedConnectsConverge: migrations are taken not to drop collections, which a connect would create again.
- SentAtMostOnceADay: local dates of a clock that does not go back are taken not to go back. Times are minutes of the day. Sending itself, with its retries, is left out.
- GuessesAreRateLimited: attempts follow one another; `OverlappingGuessesAreLimited` is about attempts that overlap. Missing and disabled accounts are left out.
- OverlappingGuessesAreLimited: reading the account and the clock is one step, so an attempt is let through by the lock as it is then.
- Notify digests, escalation, RBAC and sessions: their awaits interleave, and their sequential forms are simple.
- Vehicle simulation physics and route helpers: floating point and textbook searches.
