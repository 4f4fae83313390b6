# Verification of the node's user reconciliation

A Marznode node is told by its panel which users belong on which inbounds, and keeps an
in-memory store and its backends (xray, sing-box) in line with that. This project models the
parts of the node in which that can go wrong and proves what they keep.

The centre is the reconciliation engine.

* `Model`, `Reconcile` say on values what one message does to one user: the plan of removals and
  additions, any partial effect of a plan whose calls fail with or without their effect, retries.
* `Ledger` puts the users together: messages applied in order, the cleanup, the repopulation.
* `Serial` and `WorkerPool` treat the bulk workers: every store access and every backend call is a
  step of its own, and any interleaving is compared with whole attempts run one at a time.
* `UserLocks` is the reference-counted lock per user on which that rests, and `LockedPool` the two
  together: with the steps of the lock among those of the workers, every interleaving still amounts
  to whole attempts one at a time, and repopulations end alike however they are chunked and run.
  `Termination` shows that they do end: no scheduling is endless, and all messages get applied.
* `Storage` and `NodeService` are the store and the service as classes, with the loops of the
  program; each method is proved against the functions of `Reconcile`, `Ledger` and `Serial`.
  The streaming and the unary repopulation are both proved, for every list of messages, to be a
  repopulation in the sense of `Serial.Repopulates`, whatever the chunk size, the bulk threshold
  and the number of workers; with distinct ids that has one result (`Serial.RepopulatesDistinct`),
  so the two end alike.
* `History` is about whole runs: what stays true of stored users, and when store and backends
  agree.

Around it are the protocols of the backends, each a state machine over the steps that other
goroutines can see, with proofs over all interleavings: `XrayRepopulate` (the handshake of the
background worker that puts users back into xray), `XrayHealth` (the health monitor),
`SingboxConfig` (the configuration edited in place), `SingboxBackend` (start, stop and restart from
the store), `SingboxReload` (edits, dirty flag, reload worker and restarts), `SingboxRunner` (the
supervisor of the child). `Identifier` and `Usage` are the user identifier, its parser and the
traffic accounting, `XrayPolicy` the deep merge that forces the statistics policy, `LogBus` the log
fan-out.

Deviations from what the program appears to intend, each with its exact condition:

* An empty list of tags resolves to every registered inbound. Force mode still reconciles; an
  incremental update of a stored user does so if and only if `Reconcile.IncrementalSafe` holds
  before it (`Reconcile.IncrementalReconcilesIff`), and a run of successful calls stays in agreement
  if and only if all its incremental updates were safe (`History.AgreementOverRuns`).
* A message given up half-done can leave a grant that a later successful message does not take away
  (`Reconcile.GivenUpGrantStays`), or a revocation that a later one does not undo
  (`Reconcile.GivenUpRevocationStays`). In any mix of modes the next success restores agreement,
  whatever the backends answered, if and only if `Reconcile.MustHeal` (`Reconcile.GivenUpHealsIff`);
  how far runs stray meanwhile is `History.AgreementRegained`. A repopulation does not restore
  everybody either (`Ledger.RepopulateAgreesIff`, `Ledger.OrphanSurvives`).
* A sing-box restart that overlaps the reload worker can end with the old configuration loaded and
  the dirty flag clear (`SingboxReload.OverlapLosesRestart`), if and only if its save falls between
  the worker's look-up and the worker's save of another text (`SingboxReload.SaveSafeIff`).
* A sing-box user update can be accepted and never loaded (`SingboxReload.StaleEditIsLost`): its edit
  is in the configuration in memory if and only if no restart has stopped the object it found,
  before the edit or since (`SingboxReload.EditSurvivesIff`). What the restart reads from the store
  is another matter; the engine assumes that none happens in the middle of an apply.
* An exit token of sing-box may belong to a child that was already replaced
  (`SingboxRunner.TokenMayBeStale`), if and only if a start drained the channel before that child's
  goroutine sent it (`SingboxRunner.TokenStaleIff`).

`dafny verify dfyconfig.toml` checks everything.

## Model

| member | source | states |
|---|---|---|
| Reconcile.AttemptCases | internal/service/service.go:127-155 | One attempt, begun anywhere within the partial effect of earlier ones, either carries out the whole plan or leaves the store alone and stays within memberships between "all removed" and "all added" |
| Reconcile.RetryConverges | internal/service/service.go:272-296 | In both modes, from every state: retries that succeed end exactly where one failure-free attempt would, and retries that give up left the store unchanged and the memberships within the plan's calls |
| Reconcile.RetryStops | internal/service/service.go:277-295 | Retrying is that many attempts in a row, each on what the one before left, up to the first that succeeds or finds the context cancelled and to the allowed number at most |
| Reconcile.ResolvedTags | internal/service/service.go:176-190 | The resolved inbounds have the requested registered tags, blanks ignored; nothing left to ask for means all registered tags |
| Reconcile.ResolvesTo | internal/service/service.go:176-190 | The tags of the resolved inbounds, in set algebra: all registered ones when nothing but blanks is asked for, else the requested ones among them |
| Reconcile.AttemptInFull | internal/service/service.go:200-270 | Every case of an attempt, in both modes, from any state and under all answers of the backends: which calls it makes in terms of stored and requested tags, which of them take effect, when the additions are skipped, when it succeeds and what is stored then |
| Reconcile.ForceEffect | internal/service/service.go:238-255 | A force update of a stored user, from any state: it leaves the inbounds no longer asked for, or every one when there is none of these, and joins all it asks for |
| Reconcile.IncrementalCalls | internal/service/service.go:238-268 | The same for an incremental update, which joins only the new inbounds, or every one when there is none of these |
| Reconcile.InsertionEffect | internal/service/service.go:212-218 | The insertion of a user, from any state: what it joins, and its entry |
| Reconcile.RemovalEffect | internal/service/service.go:208-224 | A message without tags or without id or name, from any state: it takes a stored user off the inbounds of its entry, and otherwise changes nothing |
| Reconcile.Reconciles | internal/service/service.go:200-270 | In all four stored/empty-request cases a successful attempt that is not an incremental update of a stored user takes an agreeing user to an agreeing one, stored on exactly the resolved requested tags, under the name and key it was inserted with |
| Reconcile.ForceHealsIff | internal/service/service.go:200-256 | From any state at all, a successful force attempt ends in agreement if and only if every membership the user held is one the attempt makes a call about |
| Reconcile.RetryCompletes | internal/service/service.go:272-296 | However often it failed before, a message that succeeds in the end leaves its whole plan done on the state it began with, in both modes |
| Reconcile.GivingUpChanges | internal/service/service.go:272-296 | Messages given up one after the other, in any mix of modes, leave the store alone and change no membership beyond what their calls may change; one without a call to a backend cannot be given up |
| Reconcile.GivenUpHealsIff | internal/service/service.go:200-296 | In any mix of modes, from any state: after any messages given up with all their retries, the next that succeeds brings agreement under every answer of the backends if and only if one of them makes no call at all, or the next reconciles from the state before them and makes a call about every membership they may have changed |
| Reconcile.MustHealFromAgreement | internal/service/service.go:200-296 | From an agreeing user this is a condition on the messages and the stored user: the next is safe, in the sense of incremental updates, and makes those calls |
| Reconcile.GivenUpGrantStays | internal/service/service.go:238-296 | In force mode, for every number of retries: a membership granted by a message that was then given up survives a later message that succeeds |
| Reconcile.GivenUpRevocationStays | internal/service/service.go:238-296 | In incremental mode, for every number of retries: a membership revoked by a message that was then given up is not granted again by a later safe message that asks for it and succeeds, though it is stored |
| Reconcile.IncrementalEffect | internal/service/service.go:229-268 | Exact memberships after an incremental update: the requested tags when there was something to remove and to add, only the new ones when nothing was to be removed, all covered tags when nothing was to be added |
| Reconcile.IncrementalReconcilesIff | internal/service/service.go:238-268 | An incremental update ends in agreement if and only if a condition on stored tags, requested tags and node held before it |
| Reconcile.IncrementalGrowthLosesOldTag | internal/service/service.go:238-250 | A user on one inbound asked to be on a second as well is taken off the first |
| Reconcile.IncrementalShrinkKeepsOldTag | internal/service/service.go:256-268 | A user on two inbounds asked to stay on one is put back on the other |
| Ledger.InOrderOthers | internal/service/service.go:376-392 | Applying messages changes nothing for users that no valid message is about |
| Ledger.InOrderSlice | internal/service/service.go:376-392 | With distinct ids a user ends as its own message, applied to its first state, leaves it |
| Ledger.CleanupSlices | internal/service/service.go:394-409 | Cleanup leaves kept users alone and sweeps every other stored user by itself, dropping it only when all its removals succeeded |
| Ledger.CleanupExactly | internal/service/service.go:394-409 | Under all answers: exactly who stays stored after a cleanup and which memberships go, answer by answer |
| Ledger.RepopulateSlice | internal/service/service.go:450-505 | From any state, if messages and cleanup succeed in the end: a user a message is about has that message's plan done, one named without a username is left alone, every other is dropped with the memberships its entry entitled it to |
| Ledger.RepopulateExact | internal/service/service.go:450-505 | From an agreeing state, if messages and cleanup succeed in the end, everyone named by a valid message ends as that message asks in store and backends, everyone not named is gone, and all agree |
| Ledger.RepopulateAgreesIff | internal/service/service.go:450-505 | From any state, exactly which users such a repopulation brings into agreement |
| Ledger.OrphanSurvives | internal/service/service.go:486-503 | A membership left to a user who is not stored outlives every repopulation that does not name the user |
| Ledger.RepopulateTagTable | internal/service/service.go:450-505 | From any state, which ids are stored and on which tags afterwards depends on the request and the registered inbounds alone |
| Ledger.RepopulateIdempotent | internal/service/service.go:450-505 | Repeating the call changes nothing if it succeeds again |
| Serial.ScheduleOnTrack | internal/service/service.go:272-296 | However the attempts of different messages are interleaved, a job under way is always where its own retries alone would be |
| Serial.ScheduleOthers | internal/service/service.go:411-448 | No schedule touches a user that no valid message is about |
| Serial.ScheduleIrrelevant | internal/service/service.go:411-448 | With distinct ids every schedule of attempts that finishes all jobs ends like the list applied in order |
| Serial.SerialisedConcat | internal/service/service.go:354-364 | Complete schedules of two chunks, one after the other, make up a complete schedule of both chunks together |
| Serial.InOrderIsSerial | internal/service/service.go:385-391 | Applying messages one by one, with retries, is such a complete schedule |
| Serial.PrefixKeepsOthers | internal/service/service.go:328-344 | Whatever part of the received messages was applied, users that none of them is about keep store entry and memberships |
| Serial.RepopulatesDistinct | internal/service/service.go:321-505 | With distinct ids there is one end for all repopulations with the same messages; that the steps of real workers are such repopulations is `LockedPool.RepopulationsEndAlike` |
| WorkerPool.StepKeeps | internal/service/service.go:200-270 | Every store access and every backend call keeps the simulation: attempts under way, left to themselves, end where a serial run in lock order already is |
| WorkerPool.PoolIsSerial | internal/service/service.go:411-448 | Any interleaving of any number of workers that has come to rest equals its attempts run one at a time in the order the locks were acquired, with every job finished |
| WorkerPool.PoolIsSerialised | internal/service/service.go:411-448 | And those attempts are a complete schedule of its messages and of nothing else, which is what chunks of a stream are put together from |
| WorkerPool.PoolIsInOrder | internal/service/service.go:411-448 | With distinct ids the final store and memberships are those of the list applied in order, for every number of workers and interleaving |
| WorkerPool.PoolNotStuck | internal/service/service.go:411-448 | Until it is at rest a pool with a worker can always take a step |
| LockedPool.LockMeansFree | internal/service/service.go:205-206 | A worker that can take the mutex it found in the lock table finds no attempt for its user under way |
| LockedPool.StepKeeps | internal/service/service.go:91-116 | Every step of pool and lock together keeps both invariants and each worker in step with its thread of the lock |
| LockedPool.RunsAsPool | internal/service/service.go:200-206 | A pool with its lock makes only steps that a pool could make in which attempts for one user never overlap |
| LockedPool.LockedPoolIsSerialised | internal/service/service.go:411-448 | In every interleaving of any number of workers, all steps of the lock among them, a pool at rest has made whole attempts at its messages one at a time |
| LockedPool.LockedNotStuck | internal/service/service.go:411-448 | The lock never holds the pool up for good |
| LockedPool.ChunksAreSerialised | internal/service/service.go:354-392 | Chunks applied one after the other, each by an interleaving of workers or message by message, are a complete schedule of all messages |
| LockedPool.RepopulationsEndAlike | internal/service/service.go:321-505 | With distinct ids a repopulation ends in one state, however it is cut into chunks, whichever chunks the workers run, and whatever their number and the interleaving of their steps |
| Termination.StepDescends | internal/service/service.go:411-448 | Every step of a worker or of the lock leaves less to do: attempts, queued messages, phases, calls or steps of the lock, in that order |
| Termination.EndlessRunBreaksOff | internal/service/service.go:411-448 | So no scheduling keeps the pool busy for ever |
| Termination.ComesToRest | internal/service/service.go:411-448 | From every state of every interleaving the pool can go on until all messages are done and all workers idle |
| Termination.BulkIsApplied | internal/service/service.go:411-448 | Hence all messages of a bulk do get applied, as a complete schedule, with distinct ids as the list in order, for every number of workers from one on |
| UserLocks.LockTable.Register | internal/service/service.go:91-99 | Entering takes the mutex in the table or creates one, counts one more reference and touches no other mutex |
| UserLocks.LockTable.Deregister | internal/service/service.go:105-115 | Leaving counts one reference less and drops the entry only when none is left and it still holds this mutex |
| UserLocks.CountedKept | internal/service/service.go:91-116 | Every step keeps references equal to registered threads, all sharing the mutex in the table |
| UserLocks.HeldKept | internal/service/service.go:101-103 | Every step keeps each held mutex with one thread |
| UserLocks.MutualExclusion | internal/service/service.go:91-116 | In every interleaving at most one thread is inside for a user although mutexes are created and deleted |
| UserLocks.RefsAreRegistrations | internal/service/service.go:91-116 | The reference count of a user's mutex is the number of threads registered for the user, all sharing that mutex; no thread, no entry |
| UserLocks.RecheckNeverFails | internal/service/service.go:108-115 | The re-check before the deletion always finds the same mutex, and the entry stays exactly when somebody else is registered |
| Storage.Memory.ListUsers | internal/storage/memory.go:22-32 | Every stored user exactly once |
| Storage.Memory.GetUser | internal/storage/memory.go:34-44 | The stored user, or nothing |
| Storage.Memory.UpdateUserInbounds | internal/storage/memory.go:46-52 | One user's entry is replaced and no other |
| Storage.Memory.RemoveUser | internal/storage/memory.go:54-58 | One user's entry goes and no other |
| Storage.Memory.FlushUsers | internal/storage/memory.go:60-64 | No user is left |
| Storage.Memory.ListInbounds | internal/storage/memory.go:66-86 | No tags stand for every inbound, each once; otherwise the known ones in the order asked for |
| Storage.ListedElements | internal/storage/memory.go:78-85 | The inbounds listed are those registered under a requested tag |
| Storage.ListedDistinct | internal/storage/memory.go:78-85 | Distinct tags give inbounds with distinct tags |
| Storage.ListedConcat | internal/storage/memory.go:78-85 | They come in the order of the tags |
| Storage.Memory.RegisterInbound | internal/storage/memory.go:88-92 | The inbound is stored under its tag |
| Storage.Memory.RemoveInbound | internal/storage/memory.go:94-109 | The inbound goes, and every user keeps exactly its other inbounds, in order |
| Storage.TakeOff | internal/storage/memory.go:100-105 | The loop that filters one user's inbounds |
| Storage.TakeOffAll | internal/storage/memory.go:99-108 | The loop over all users, in any order: each keeps its other inbounds |
| Storage.WithoutElements | internal/storage/memory.go:99-108 | Taking an inbound away leaves exactly the others |
| Storage.WithoutConcat | internal/storage/memory.go:99-108 | In their old order |
| Storage.WithoutDistinct | internal/storage/memory.go:99-108 | And leaves distinct tags distinct |
| Storage.Memory.UnregisterInbound | internal/storage/memory.go:111-115 | The inbound goes and users keep their entries for it |
| Storage.Memory.ListInboundUsers | internal/storage/memory.go:117-132 | Every user with the tag among its inbounds exactly once, registered or not |
| NodeService.Service.constructor | internal/service/service.go:56-85 | Thresholds, chunk size, workers and retries are at least one |
| NodeService.Backends.AddUser | internal/backend/xray/api.go:153-155 | A member is added if the call takes effect, and adding one who is there already is a success |
| NodeService.Backends.RemoveUser | internal/backend/xray/api.go:185-187 | A member is taken away if the call takes effect, and one who is not there is a success |
| NodeService.Service.AddUser | internal/service/service.go:127-140 | All calls are made, uncovered tags skipped, only this user's memberships change by the calls that took effect, and success means no call failed |
| NodeService.Service.RemoveUser | internal/service/service.go:142-155 | The same for removals |
| NodeService.Service.ResolveInbounds | internal/service/service.go:176-190 | Inbounds with distinct tags, blanks and repetitions dropped, all of them for an empty list |
| NodeService.Service.Compare | internal/service/service.go:229-246 | Current and desired tags, the inbounds asked for and those to leave, whatever order the maps are walked in |
| NodeService.CollectTags | internal/service/service.go:229-232 | The set of tags of a list of inbounds |
| NodeService.CollectStrings | internal/service/service.go:233-236 | The set of requested tags |
| NodeService.Difference | internal/service/service.go:238-243 | The tags of one set not in the other, in whatever order the map is walked |
| NodeService.Service.ApplyUserData | internal/service/service.go:200-270 | Store and memberships change as the specification of one attempt says, for this user only, and the service's invariant is kept |
| NodeService.Service.ApplyNew | internal/service/service.go:212-218 | A user not stored yet: stored only after all additions succeeded |
| NodeService.Service.ApplyGone | internal/service/service.go:219-224 | A stored user without tags: dropped only after all removals succeeded |
| NodeService.Service.ApplyChanged | internal/service/service.go:229-269 | A stored user with tags: removals first, additions only after all of them succeeded, the store last, under the stored name |
| NodeService.Service.ApplyUserDataWithRetry | internal/service/service.go:272-296 | The loop makes the attempts of the retry specification, which `Reconcile.RetryConverges` is about |
| NodeService.Service.CleanupRepopulateUsers | internal/service/service.go:394-409 | The loop over a snapshot of users, in any order, equals the cleanup of the whole state at once |
| NodeService.Service.CleanupUser | internal/service/service.go:400-407 | One user is taken off its inbounds and dropped only when all removals succeeded |
| NodeService.Service.AttemptJob | internal/service/service.go:433-438 | One attempt of a worker, and whether its worker is through with the message |
| NodeService.Service.ApplyRepopulateBulk | internal/service/service.go:411-448 | For every list, repeated ids included, the pool runs a complete schedule of whole attempts at its messages and of nothing else |
| NodeService.Service.ApplyRepopulateChunk | internal/service/service.go:376-392 | Short or long, a chunk is applied as a complete schedule of its messages |
| NodeService.Service.Buffer | internal/service/service.go:354-363 | At every message applied ++ buffered = received, the applied part being whole chunks and exactly a complete schedule of its messages |
| NodeService.Service.BrokenOff | internal/service/service.go:337-344 | A stream that breaks off has applied exactly the whole chunks of what it received, and kept every user it did not name |
| NodeService.Service.FinishRepopulate | internal/service/service.go:330-335 | The rest of the buffer and the cleanup complete a repopulation with everything received |
| NodeService.Service.SyncUsers | internal/service/service.go:321-374 | A stream whose first message has id 0 and the marker as its name, read to its end, is a repopulation with the other messages for any chunk size; broken off, it has applied its whole chunks, swept nobody and kept every user it did not name; any other stream applies its messages in order in incremental mode and keeps every user it does not name |
| NodeService.Service.RepopulateUsers | internal/service/service.go:450-505 | The unary call is a repopulation with its messages, in the same sense as the stream |
| NodeService.CollectIds | internal/service/service.go:487-490 | The ids named by the messages |
| History.AlwaysWellKept | internal/service/service.go:200-270 | In every run every stored user has its non-zero id as key, a username, and one inbound per tag at most |
| History.StepEntry | internal/service/service.go:200-270 | An operation can only leave a user's id, name and key, drop the user, or insert it as a valid message names it |
| History.NameAndKeyFixed | internal/service/service.go:248-268 | Username and key stay fixed from insertion to removal |
| History.CallsNameTheInserted | internal/service/service.go:219-248 | Every later call, the last removal included, names the user as the inserting message did |
| History.CallsAsElsewhere | internal/service/service.go:376-409 | A call of a run does what a message of a stream or the cleanup of one user does |
| History.CallKeepsAgreementIff | internal/service/service.go:200-296 | From agreement of the whole node, a successful call keeps it if and only if it was safe |
| History.AgreementOverRuns | internal/service/service.go:200-296 | In a run of successful calls store and backends agree after every call if and only if every incremental update was safe when its turn came |
| History.MendingCall | internal/service/service.go:272-296 | A call given up adds to what may have changed no more than its own calls may change; one that succeeds restores agreement if it mends that |
| History.AgreementRegained | internal/service/service.go:200-296 | In any run, given-up calls and cleanups among them, a user strays from agreement by no more than the calls given up since its last success may have changed, and agrees after every success, if each success is safe and makes a call about all of that |
| XrayRepopulate.OneUnclearedWorker | internal/backend/xray/backend.go:190-228 | In every interleaving of starts and stops at most one worker has not cleared the fields, the newest |
| XrayRepopulate.StepKeeps | internal/backend/xray/backend.go:190-255 | Every field access, cancel, close and mutex step of any caller or worker keeps the handshake's invariant |
| XrayRepopulate.FieldsEquivalent | internal/backend/xray/backend.go:199-211 | While the mutex is free, running, cancel and done are set together, for the newest worker, exactly while it is uncleared |
| XrayRepopulate.StopTargetsOneWorker | internal/backend/xray/backend.go:230-241 | A stop cancels the worker it waits for |
| XrayRepopulate.StoppedSawClosed | internal/backend/xray/backend.go:248-251 | A stop that returned without a timeout saw its worker's channel closed |
| XrayRepopulate.ClosedStays | internal/backend/xray/backend.go:205 | A closed channel stays closed, whatever follows |
| XrayRepopulate.WorkerCloses | internal/backend/xray/backend.go:204-214 | A worker at work, left to itself, closes its channel, and no field is left set then unless a newer worker is running |
| XrayRepopulate.StopReturns | internal/backend/xray/backend.go:243-251 | So a caller that awaits a worker sees its channel closed and is free again; one that gives up waiting gets away at once |
| XrayRepopulate.StopDelivers | internal/backend/xray/backend.go:230-255 | A stop while a worker is running, left to itself with that worker, cancels, awaits and sees it closed, and the fields are clear |
| XrayRepopulate.StartDelivers | internal/backend/xray/backend.go:190-228 | A start while none is running, left to itself, sets the fields for a new worker and has it at work |
| XrayRepopulate.CallsWithoutEffect | internal/backend/xray/backend.go:190-241 | A start while a worker is running, and a stop while none is, return and change nothing |
| XrayRepopulate.StartAfterClosedLaunches | internal/backend/xray/backend.go:190-214 | Once a worker's channel is closed, a start launches a newer worker or finds one already launched |
| XrayRepopulate.StartAfterStopLaunches | internal/backend/xray/backend.go:190-255 | So does any start after a stop that returned without a timeout, by the caller that stopped, as in a restart, or by another |
| XrayRepopulate.NextStartIsFresh | internal/backend/xray/backend.go:190-255 | If nobody launched a worker after the one whose stop was awaited, that start launches a fresh one |
| XrayRepopulate.OtherOrderLosesStart | internal/backend/xray/backend.go:204-213 | With the channel closed before the fields are cleared, a start after a completed stop can launch nothing |
| XrayHealth.Health.Watch | internal/backend/xray/backend.go:437-492 | The loop attempts restarts at exactly the ticks the specification names |
| XrayHealth.AttemptIff | internal/backend/xray/backend.go:443-488 | A restart is attempted exactly at a failed probe ending a streak of threshold failures (3 by default) with no other finding and nothing acted on in between, when no cooldown is set, no start is recorded or at least the cooldown has passed since the last one recorded; with less, it is put off |
| XrayHealth.LastRecordedIsKept | internal/backend/xray/backend.go:471-488 | The time the monitor compares with is that of the last start recorded, by somebody else or by a restart of its own that succeeded |
| XrayHealth.LastRecordedIs | internal/backend/xray/backend.go:471-488 | That start is the last one made by somebody else or by an attempt of the monitor that succeeded, else the one before its first tick |
| XrayHealth.RestartsNeedFailures | internal/backend/xray/backend.go:465-484 | k restarts need at least k times threshold failed probes |
| XrayHealth.OutageIsActedOn | internal/backend/xray/backend.go:465-486 | Among threshold failures in a row one is acted on: a restart, or one put off by the cooldown |
| XrayHealth.OutageIsEnded | internal/backend/xray/backend.go:465-486 | Among threshold failures in a row that all come at least a cooldown after the last recorded start, one is answered with a restart |
| XrayHealth.AttemptsApart | internal/backend/xray/backend.go:471-482 | After a restart that succeeded the next attempt is at least a cooldown later |
| SingboxConfig.Config.constructor | internal/backend/singbox/config.go:27-45 | Serves the tagged inbounds with a supported protocol and counts nobody yet |
| SingboxConfig.ServedExactly | internal/backend/singbox/config.go:144-225 | An inbound is served if and only if the file has it with a tag and one of seven protocols |
| SingboxConfig.ServedConcat | internal/backend/singbox/config.go:144-225 | In the order of the file |
| SingboxConfig.BuildAccount | internal/backend/singbox/config.go:242-267 | An account fails exactly for vmess, vless and tuic with a key that yields no UUID; which credential it holds and under which field the identifier stands |
| SingboxConfig.Config.AppendUser | internal/backend/singbox/config.go:68-105 | One entry at the end of the first inbound with the tag and the user counted, or nothing at all when no account can be built |
| SingboxConfig.Config.CountUser | internal/backend/singbox/config.go:90-104 | The identifier is counted unless it already is |
| SingboxConfig.Config.RemoveUser | internal/backend/singbox/config.go:107-130 | The user's entries leave that inbound, the others keep their order |
| SingboxConfig.MembershipStep | internal/backend/singbox/config.go:68-130 | Seen from outside, an inbound is a set of users that appends and removals change for their own user only, as the engine assumes of a backend |
| SingboxConfig.CopiesSurvive | internal/backend/singbox/config.go:68-130 | After any operations a user has one entry for each successful append since its last removal, besides those it started with if there was none |
| SingboxConfig.OneOp | internal/backend/singbox/config.go:68-130 | One operation moves the number of a user's entries only if it is about that user, and an own entry stays nobody else's |
| SingboxConfig.ApplyKeepsRest | internal/backend/singbox/config.go:68-130 | An operation changes nothing but the users of the first inbound with its tag |
| SingboxConfig.LastOpDecides | internal/backend/singbox/config.go:68-130 | A user is in an inbound if and only if the last operation about it there was an append, or there was none and it was in before |
| SingboxConfig.OthersKeepOrder | internal/backend/singbox/config.go:119-127 | Entries of everybody else stay, in their old order |
| SingboxConfig.CountedGrows | internal/backend/singbox/config.go:90-104 | The list of counted users never shrinks or repeats itself and gains exactly the identifiers appended |
| SingboxBackend.Backend.AddUser | internal/backend/singbox/backend.go:223-239 | Without a configuration an error and no change; else the append, and the dirty flag exactly when it succeeded |
| SingboxBackend.Backend.RemoveUser | internal/backend/singbox/backend.go:241-255 | Likewise for the removal |
| SingboxBackend.Backend.AddStorageUsers | internal/backend/singbox/backend.go:167-176 | Succeeds if and only if every stored user on a served inbound gets an account, and then appends one entry per listing and nothing else |
| SingboxBackend.Backend.AddAll | internal/backend/singbox/backend.go:169-173 | One inbound's users: one entry more for each, or failure at the first without an account |
| SingboxBackend.StartedPresent | internal/backend/singbox/backend.go:139-146 | A configuration just built has the entries of the file and of the stored users on each served inbound, and no other user's |
| SingboxBackend.StartedCounted | internal/backend/singbox/backend.go:139-176 | And it counts the traffic of exactly the stored users on served inbounds |
| SingboxBackend.RegisteredExactly | internal/backend/singbox/config.go:52-56 | Registering gives each served tag the last inbound of the file with it and leaves other tags as they were |
| SingboxBackend.Backend.Start | internal/backend/singbox/backend.go:122-165 | When it succeeds, what is registered and what the configuration holds; when it fails, the old configuration stays |
| SingboxBackend.Backend.Stop | internal/backend/singbox/backend.go:190-211 | Served tags are unregistered, users keep their inbounds |
| SingboxBackend.Backend.Restart | internal/backend/singbox/backend.go:213-221 | Succeeds exactly when all its parts do, keeps registrations and users, and rebuilds the entries from the store alone |
| SingboxBackend.RestartRebuilds | internal/backend/singbox/backend.go:122-176 | A restart rebuilds the membership of an inbound that agreed with the store exactly, if and only if the file has no entry of a user who was not on it |
| SingboxBackend.SingleEntry | internal/backend/singbox/backend.go:167-176 | With unique tags and no entry in the file a stored user gets a single entry |
| SingboxReload.NoLostUpdate | internal/backend/singbox/backend.go:287-323 | In every interleaving, with any failures, whenever the mutex is free and the flag clear, the child was last told to load the current configuration object with every edit made to it so far, provided no restart saved another text between the worker's look-up and its save |
| SingboxReload.StepKeeps | internal/backend/singbox/backend.go:122-323 | Every step of calls, worker and restarts keeps file, child and memory in step as far as the flag is clear |
| SingboxReload.PassDelivers | internal/backend/singbox/backend.go:296-320 | From any such state with the flag set, one undisturbed pass of the worker delivers everything and clears the flag |
| SingboxReload.FailedPass | internal/backend/singbox/backend.go:296-320 | A pass that fails, at the encoding, the save or the reload, leaves the flag set for the next tick and what is in memory as it is |
| SingboxReload.CallDelivers | internal/backend/singbox/backend.go:223-255 | A call left to itself makes its edit on the configuration in memory and sets the flag; it fails, changing nothing, exactly when none is in memory or an account needs a UUID that the key does not yield |
| SingboxReload.RestartDelivers | internal/backend/singbox/backend.go:122-221 | A restart left to itself ends with its text in memory, file and child; if a part of it fails nothing is in memory |
| SingboxReload.SaveSafeIff | internal/backend/singbox/backend.go:148-163 | Exact condition on restarts: every way to go on after a restart's save is free of loss if and only if the worker is not about to save another text |
| SingboxReload.ClashLoses | internal/backend/singbox/backend.go:302-320 | If it is, for every text, the usual rest of both ends with the old text loaded, the new one in memory and the flag clear |
| SingboxReload.EditSurvivesIff | internal/backend/singbox/backend.go:223-255 | An accepted edit belongs to the configuration in memory, hence to what the child loads, if and only if its object was still the current one when it was edited and no restart has stopped since |
| SingboxReload.StaleEditIsLost | internal/backend/singbox/backend.go:228-238 | If a whole restart passes between a call's look-up and its edit, the call succeeds and its edit is never loaded |
| SingboxReload.OverlapLosesRestart | internal/backend/singbox/backend.go:213-221 | Such a clash is within reach: for any two texts and any edit there is a run from the start of the node that loses the restart |
| SingboxRunner.OneLiveChild | internal/backend/singbox/runner.go:38-71 | In every interleaving at most one child is live, the newest |
| SingboxRunner.StepKeeps | internal/backend/singbox/runner.go:38-101 | Every step of starts, exits, waits and receptions keeps the supervisor's invariant |
| SingboxRunner.OnlyItsOwn | internal/backend/singbox/runner.go:81-93 | A wait clears only its own, dead child; one for an older child never clears a newer one |
| SingboxRunner.OneTokenEach | internal/backend/singbox/runner.go:95-100 | Each child yields at most one exit token, only after its death |
| SingboxRunner.DeathIsReported | internal/backend/singbox/runner.go:87-100 | In every run the tokens received and in the channel are those of exactly the children whose goroutine cleared them and is through and did not find the channel full |
| SingboxRunner.DeathDelivers | internal/backend/singbox/runner.go:73-101 | The death of the current child, left to itself, clears it and puts its token into an empty channel |
| SingboxRunner.StartDelivers | internal/backend/singbox/runner.go:38-71 | A start, left to itself while no child is waited for, drains the channel and makes a new child the current one; a failed spawn changes nothing |
| SingboxRunner.ReportedOrReplaced | internal/backend/singbox/runner.go:87-100 | A child waited for was reported or replaced by a newer one |
| SingboxRunner.StartRefusedIff | internal/backend/singbox/runner.go:43-45 | A start is refused exactly while the current child's wait has not returned, which covers every moment a child is live |
| SingboxRunner.TokenStaleIff | internal/backend/singbox/runner.go:61-64 | Exact condition: the token in the channel is that of a child a start has come past if and only if some start drained the channel before that child's goroutine sent; if none did, no child is the current one |
| SingboxRunner.TokenMayBeStale | internal/backend/singbox/runner.go:93-100 | Such a token can arrive while the successor is live |
| Identifier.CounterUidRecovers | internal/auth/generator.go:39-41 | Both readers recover the id from a counter name for every id and every username, dots and separators included |
| Identifier.IdentifierReads | internal/auth/generator.go:39-41 | The identifier reads as the id in decimal without a zero in front, a dot and the username |
| Identifier.IdentifierInjective | internal/auth/generator.go:39-41 | Different users have different identifiers |
| Identifier.ReadersDifferOnlyOnEmptyId | internal/backend/singbox/stats.go:85-88 | The two readers disagree exactly on an identifier that begins with its dot |
| Usage.UserUsages | internal/backend/xray/api.go:221-236 | The summing loop computes the tally the two lemmas below are about |
| Usage.TallyPerUser | internal/backend/singbox/stats.go:78-93 | A user appears exactly if it has a counter, with their sum modulo 2^64 |
| Usage.TallyConserves | internal/backend/xray/api.go:221-236 | The totals add up to all accepted counters modulo 2^64 |
| Usage.FetchUsersStats | internal/service/service.go:538-550 | In any order of backends and users the merged totals are the sums over the backends modulo 2^64, per user and overall, failed backends left out |
| Usage.MergeOne | internal/service/service.go:547-549 | One backend's totals are added per user with wrap-around, in any order |
| Usage.MergeConserves | internal/service/service.go:547-549 | Merging conserves the sum of both modulo 2^64 |
| XrayPolicy.MergeMap | internal/backend/xray/config.go:133-148 | The copying loop computes the merge |
| XrayPolicy.MergeLeaf | internal/backend/xray/config.go:133-148 | A leaf is in the merge exactly where the override has it, or where the base has it and the override does not reach |
| XrayPolicy.MergeTwice | internal/backend/xray/config.go:133-148 | Merging the same override again changes nothing |
| XrayPolicy.MergeNotAssociative | internal/backend/xray/config.go:133-148 | The merge is not associative |
| XrayPolicy.RawConfig.ApplyApiConfig | internal/backend/xray/config.go:79-131 | The API inbound and its rule come first, the policy is forced, everything else stays |
| XrayPolicy.RuleReachesApi | internal/backend/xray/config.go:79-131 | The forced rule leads from the forced inbound to the API |
| XrayPolicy.ForcePolicy | internal/backend/xray/config.go:100-104 | The policy has the forced leaves and of the configured ones exactly those not covered, configured or missing |
| XrayPolicy.TrafficIsCounted | internal/backend/xray/config.go:86-104 | Traffic of level-0 users is counted whatever the configured policy says |
| XrayPolicy.SystemCounters | internal/backend/xray/config.go:86-104 | Outbound totals are counted and inbound totals are not, whatever the configured policy says |
| XrayPolicy.OtherLevelsStand | internal/backend/xray/config.go:86-104 | The configured policy of every other level stands |
| LogBus.Bus.Publish | internal/util/logbus.go:23-38 | The buffer is the last lines of all ever published and every reader with room gets the line |
| LogBus.Bus.Deliver | internal/util/logbus.go:32-37 | Each reader gets the line or, being full, misses it; nobody waits |
| LogBus.Bus.Snapshot | internal/util/logbus.go:40-46 | The last lines published |
| LogBus.Bus.Subscribe | internal/util/logbus.go:48-54 | A new reader is offered every line from here on |
| LogBus.Bus.Unsubscribe | internal/util/logbus.go:56-63 | One reader goes and the others are undisturbed |
| LogBus.Bus.Receive | internal/backend/singbox/runner.go:175-177 | Lines come out in the order they went in |
| LogBus.NoGap | internal/backend/singbox/runner.go:164-179 | For a reader of a bus who missed nothing, the snapshot taken after subscribing and what came after it are one stretch of the history without a gap, ending in what a snapshot gives now, and repeat exactly the lines published between the two |

## Left out

- ApplyRepopulateBulk: this method runs one attempt at a time; the interleavings of the steps inside attempts and of the lock are in `LockedPool.LockedPoolIsSerialised`, which ends in the same kind of schedule.
- The backends of the engine are one set of covered tags and one membership set: each tag belongs to one backend, covered tags are registered (`Node.Valid`), and the two do not change in the middle of a repopulation, so no restart happens there.
- The order of a stored user's inbounds is kept by `Storage` and forgotten in the engine, where nothing depends on it.
- Cleanup takes no user lock; no other call is assumed to overlap it.
- Timeouts, contexts and delays are outcomes that may go either way; waiting times and fairness are not modelled.
- The protocols are state machines over their steps rather than classes, since their point is the interleaving; a section under one mutex with nothing else to see is one step where its fields are not read outside the mutex.
- Credential derivation, JSON text, files, processes, signals, the network and gRPC are parameters or free outcomes.
- Field-by-field translation of inbounds into settings; a translated inbound carries a map of settings.
- What xray does with a user is the membership set of the engine: it treats "already exists" and "not found" as success.
- In `LogBus` a channel ends with its subscription; lines still in a closed channel are not read any more.
- Identifiers are sequences of characters; byte encodings are not modelled.
- The connections of the statistics and handler clients, with their generation numbers and semaphore.
- Hysteria2, TLS and certificates, logging, settings from the environment, versions and the remaining calls of the service, which would only add easy members.
