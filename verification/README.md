# Actias, verified

Actias runs durable objects: one pinned task and one SQLite file per object, placed on worker
nodes by leases, with secrets and key/value storage beside them. This project models the
protocols behind its guarantees in Dafny and proves them for every run, not for sample runs.

`dafny verify dfyconfig.toml` checks everything.

## Layout

- `ObjectContent`, `ObjectStorage`, `ObjectHome`: an object's file, the SQLite connection over it,
  and the pinned task's guarded dispatch, as classes whose methods are proved against step-free
  specifications.
- `ObjectRuns`, `ObjectCalls`, `ObjectAlarms`: the same task as a machine that can be interrupted
  between any two steps, and what holds over all its runs: the file is a replay of the log, the
  output gate saw it, calls are answered once and in order, alarms fire at most once.
- `Registry`, `ObjectStore`: the placement tables and the blob store as classes. `Cluster`, `Fence`:
  workers, registry and store as one machine; epochs, liveness and the shipping fence over all runs.
- `Hosting`: one object's task on every worker that has its file, the registry and the store, as
  one machine; `HostingRuns`: a served call and a takeover as single stretches of its runs.
- `Failover`: when the store holds what a caller was told, for how long, and what the next worker
  starts from; `FailoverLosses`: four runs in which an answered call is lost.
- `ClaimRace`, `ShipRace`: claim and ship taken apart into the statements they issue.
- `Envelope`, `SecretTable`, `SecretRuns`: envelope encryption taken symbolically, the versions
  table with its bounded retry, and any number of interleaved set, delete and rotation calls.
- `KvStore`: the partitioned key/value store against the flat map it is faked with.
- `Text`, `Identity`, `HostRoute`, `LikePrefix`: keys, host labels and the LIKE escape.
- `Routing`: owner resolution, forwarding and call chains.

A machine's step that is not enabled changes nothing, so "every sequence of steps" is every run.

## Findings

- Workflow bodies commit and reopen the transaction in the middle of a dispatch
  (`actias-worker-core/src/platform/workflow.rs:1628-1629`), so "a failed method persists nothing
  partial" (`actias-worker-core/src/objects.rs:442-444`) fails: a body that writes, commits and then
  errs leaves its row (`ObjectRuns.FailedBodyLeavesItsRow`). It holds of a failed or interrupted
  body exactly when what that body had committed on the way is nothing but such commits
  (`ObjectRuns.FailureAppliesNothing`).
- `total_changes` does not count schema statements, so a call that only drops or creates tables
  answers its caller without shipping (`ObjectRuns.GateMissesExactlyDdl`,
  `ObjectRuns.DroppedTableIsNotShipped`).
- A spawned task takes its file as shipped: the mark and the new connection's counter both start at
  zero (`actias-worker-core/src/objects.rs:132`, `actias-worker-core/src/objects.rs:228-239`). A
  process that dies between its commit and its gate comes back and answers reads from a row the
  store does not have, until the next write (`FailoverLosses.UnshippedCommitIsAnswered`).
- A fenced or failed ship is only logged (`actias-worker/src/routing.rs:378-386`), and the mark has
  moved by then. An ex-holder still answers Ok although the fence refused its upload
  (`FailoverLosses.FencedAnswerIsLost`), and so does the rightful holder whose upload failed
  (`FailoverLosses.FailedUploadIsAnswered`); neither is retried before the next write.
- The fence compares with what has shipped, not with who holds the lease. An ex-holder's ship lands
  as long as its successor has not shipped, and is erased by the successor's first ship, which was
  restored before it (`FailoverLosses.SuccessorErasesAnswer`).
- Schema statements aside, when the store holds what a worker answers from is settled exactly by
  `Failover.HeldAtReply`.
  It stays held in every continuation exactly when every worker that still has a file of the object
  has one descending from that ship (`Failover.SurvivesExactly`): a file on disk is never compared
  with the store (`actias-worker/src/routing.rs:277-292`), so one worker with an older file is
  enough to lose the ship when it becomes the owner again.
- Below a ttl of 3 seconds, two advertised heartbeat intervals no longer fit inside the ttl
  (`Cluster.TwoIntervalsFit`), although the comment on the interval promises that several beats do
  (`Cluster.ShortTtlReapsPunctualNode`).
- The claim is not a transaction. A claimant paused between its statements can be overtaken and told
  another node's name (`ClaimRace.PausedClaimIsOvertaken`); a re-claim can be answered `acquired`
  under the epoch of another node (`ClaimRace.ReclaimSharesAnEpoch`). Exact conditions:
  `ClaimRace.EpochsFollowLeasesExactly`, `ClaimRace.HolderIsHighestExactly`,
  `ClaimRace.AcquiredNamesAnotherExactly`, `ClaimRace.SharedEpochsExactly`.
- Neither is the ship. An upload paused between its check and its puts can overwrite a newer one
  (`ShipRace.LateZombieOverwrites`); the stored epoch never falls exactly when no overtaken upload
  puts its manifest (`ShipRace.ManifestNeverFallsExactly`). Snapshot and manifest can be of different uploads: two
  that interleave (`ShipRace.InterleavedShipsMismatch`), or one that dies between its puts
  (`ShipRace.HalfShipMismatches`). At every instant they are of one upload exactly when the last put
  was neither a manifest whose snapshot had been overwritten nor a snapshot still without its
  manifest (`ShipRace.ShipsMatchExactly`).
- A new master key under the old one's label never takes effect: the previous key replaces it in
  the keyring (`Envelope.RotationCompletesExactly`).
- The key/value fake agrees with the service exactly on project ids spelled the way the service
  prints them (`KvStore.FaithfulExactlyWhenCanonical`): the service keys by the parsed id, the fake
  by its text. The test runner uses it under one id that is no project id; there it answers as the
  service does on a real project, up to that id (`KvStore.FakeStandsIn`).

## Modelling choices

- A method body is an arbitrary finite list of operations with an arbitrary verdict. Begin, commit,
  rollback, checkpoint and alarm writes succeed. The alarm's `serial` field is not in the
  program; it names one execution of `set_alarm` so that equal payloads can be told apart.
- One clock serves the whole registry, and the time a task's alarm timer looks at never goes back. Times, fresh node ids, data keys and nonces are parameters.
  The cascade from nodes to leases is the one in
  `actias-script-service/migrations/20260818061226_leases.up.sql`.
- `Cluster` takes claims and ships as atomic steps, and `Hosting` a spawn with its claim and its
  restore; `ClaimRace` and `ShipRace` say what is left without that.
- An upload may fail before its check, its snapshot or its manifest; where is a parameter
  (`ObjectStore.Fault`). One that fails before its manifest leaves the snapshot alone behind
  (`Cluster.Tear`), and a process that dies inside an upload is that followed by a crash.
- In `Hosting` a task keeps the epoch it was granted, an output gate that runs is an upload of the
  main file under it, whole or failed, a commit is a write to the worker's own file, and a file is lost only with its task
  down. Objects start from nothing.
- AES-256-GCM is a box that opens under its own key and nonce only (sections 7.1 and 7.2 of
  NIST SP 800-38D). `SecretRuns` fixes which key each label ever names; keyrings are parts of that.
- What routing's services answer is an arbitrary environment, required to answer owners the way
  `Routing.ResolveClassOwner` does and to hold a directory true to the scope rule, which every run of
  publishing, resolving and claiming keeps (`Routing.DirectoryAlwaysOk`). A script stays in the
  project it was made in.

## Model

| member | source | states |
|---|---|---|
| `ObjectContent.ApplyAllAlarms` | actias-worker-core/src/storage.rs:281-302 | whatever a body does, the alarm rows it leaves are its last arming alone, or the rows it found |
| `ObjectContent.UncountedIsIdentity` | actias-worker-core/src/storage.rs:160-170 | operations that move `total_changes` by nothing change nothing, unless they are schema statements |
| `ObjectContent.OpMeaning` | actias-worker-core/src/storage.rs:419-441 | a statement does what it says to its own cell and table name, counts the rows it affects, and leaves every other cell, table name and alarm row alone |
| `ObjectContent.CellsAreContent` | actias-worker-core/src/storage.rs:419-441 | two contents with the same cells, table names and alarm rows are the same |
| `ObjectContent.BodyMeaning` | actias-worker-core/src/storage.rs:419-441 | after any list of statements every cell holds what the last one about it left, and a table is there as its last creation or drop says |
| `ObjectContent.LastWordStands` | actias-worker-core/src/storage.rs:419-441 | a write stays readable, and a delete or drop stays done, however many statements about other cells follow |
| `ObjectStorage.SqliteStorage.Open` | actias-worker-core/src/storage.rs:19-33 | a fresh connection sees everything committed, nothing in flight, and counts from zero |
| `ObjectStorage.SqliteStorage.Begin` | actias-worker-core/src/storage.rs:172-181 | opens the call's transaction and touches no content |
| `ObjectStorage.SqliteStorage.Commit` | actias-worker-core/src/storage.rs:183-191 | what the connection saw becomes durable; the main file lags until a checkpoint |
| `ObjectStorage.SqliteStorage.Rollback` | actias-worker-core/src/storage.rs:193-201 | the working content returns to the committed one; the change counter does not go back |
| `ObjectStorage.SqliteStorage.Checkpoint` | actias-worker-core/src/storage.rs:484-495 | the main file's bytes catch up with the committed content |
| `ObjectStorage.SqliteStorage.Exec` | actias-worker-core/src/storage.rs:419-441 | a row statement reports the rows it changed and counts them, and fails without effect exactly when its table is missing; it commits itself only outside a transaction |
| `ObjectStorage.SqliteStorage.SaveAlarm` | actias-worker-core/src/storage.rs:281-302 | delete-all-then-insert leaves exactly one row and counts every row it deleted plus one |
| `ObjectStorage.SqliteStorage.ClearAlarm` | actias-worker-core/src/storage.rs:305-316 | no alarm row is left and the deleted ones are counted |
| `ObjectStorage.SqliteStorage.LoadAlarm` | actias-worker-core/src/storage.rs:252-279 | the row read is the only row there is |
| `ObjectHome.ObjectTask.Spawn` | actias-worker-core/src/objects.rs:301-348 | the persisted alarm is re-armed and mirrored again, the ship mark starts at the new connection's zero |
| `ObjectHome.ObjectTask.SetAlarm` | actias-worker-core/src/objects.rs:170-185 | cell, row and mirror all hold the new arming |
| `ObjectHome.ObjectTask.ClearAlarm` | actias-worker-core/src/objects.rs:192-202 | cell, row and mirror all forget the alarm |
| `ObjectHome.ObjectTask.ResyncAlarm` | actias-worker-core/src/objects.rs:204-224 | after a rollback the persisted row replaces what the failed method armed, in cell and mirror alike |
| `ObjectHome.ObjectTask.WritesAdvanced` | actias-worker-core/src/objects.rs:226-239 | true exactly when the counter moved since the gate last looked, which is then remembered |
| `ObjectHome.ObjectTask.RunOp` | actias-worker-core/src/objects.rs:461-471 | one step of a method body keeps the three alarm homes in agreement |
| `ObjectHome.ObjectTask.RunBody` | actias-worker-core/src/objects.rs:461-471 | a loop over the body leaves the open transaction at the fold of its operations, and the committed content at the fold up to its last mid-body commit |
| `ObjectHome.ObjectTask.Finish` | actias-worker-core/src/objects.rs:473-503 | commit, or rollback and resync; then checkpoint; then the gate when the counter moved |
| `ObjectHome.FinishesAsDispatched` | actias-worker-core/src/objects.rs:473-503 | settling, flushing and gating a finished body equals the step-free specification of a dispatch |
| `ObjectHome.ObjectTask.GuardedDispatch` | actias-worker-core/src/objects.rs:442-506 | the whole dispatch equals its step-free specification, and the verdict returned is the body's |
| `ObjectHome.ObjectTask.FireAlarm` | actias-worker-core/src/objects.rs:409-440 | the alarm is gone from every home, durably, before its body starts |
| `ObjectHome.ObjectTask.ServeOne` | actias-worker-core/src/objects.rs:357-399 | one message of the loop: a call always, an alarm's entry exactly when one is armed, each to the end of its dispatch |
| `ObjectHome.ObjectTask.Serve` | actias-worker-core/src/objects.rs:349-405 | serving messages one at a time equals folding the dispatch specification over them in order; an entry is skipped exactly when it is an alarm's and none is armed by then, and every call is served, once, in order |
| `ObjectHome.CallsAreAdmitted` | actias-worker-core/src/objects.rs:349-405 | however alarms come and go among the messages, the calls served are all the calls, in order |
| `ObjectRuns.AlarmHomesAgree` | actias-worker-core/src/objects.rs:141-224 | in every run with crashes and respawns: at most one alarm row in every copy, mirror and cell agree at every instant, and between dispatches the row agrees too |
| `ObjectRuns.IdleStrandsNoAlarm` | actias-worker-core/src/objects.rs:372-382 | a task that hibernates leaves no alarm in its file |
| `ObjectRuns.FileIsReplay` | actias-worker-core/src/objects.rs:349-506 | over every interleaving, crash and respawn, the durable content is the left fold of the logged dispatches, and the main file equals it at every reply |
| `ObjectRuns.FailureAppliesNothing` | actias-worker-core/src/objects.rs:473-487 | an Ok body applies in full; a failed or interrupted one leaves every content as it found it if and only if what it had committed mid-body holds nothing but those commits |
| `ObjectRuns.OkBodyWrites` | actias-worker-core/src/objects.rs:473-480 | a successful body leaves in every cell the last word it had on it, and every other cell as it was |
| `ObjectRuns.FailedBodyLeavesItsRow` | actias-worker-core/src/platform/workflow.rs:1628-1629 | a concrete case: a write, a mid-body commit and an error leave the row in the file and ship it |
| `ObjectRuns.BodyRuns` | actias-worker-core/src/objects.rs:461-471 | any number of interruptible body steps leaves the same home as the body loop |
| `ObjectRuns.UninterruptedDispatch` | actias-worker-core/src/objects.rs:442-506 | the interruptible steps of one dispatch, run through, equal the dispatch specification the method meets |
| `ObjectRuns.ServedIsReplay` | actias-worker-core/src/objects.rs:349-405 | the mailbox loop's file is the replay of what it served |
| `ObjectRuns.GateSawEveryRow` | actias-worker-core/src/objects.rs:489-503 | at every reply in every run, unless a schema statement was kept since, what the gate last saw is the committed content in the main file, rolled-back writes and cleared alarms included |
| `ObjectRuns.GateMissesExactlyDdl` | actias-worker-core/src/objects.rs:226-239 | the gate's view goes stale exactly when a dispatch counted nothing yet changed the content, which takes a schema statement |
| `ObjectRuns.DroppedTableIsNotShipped` | actias-worker-core/src/objects.rs:497-503 | a concrete case: a dropped table's rows are still in the shipped bytes when the caller is answered |
| `ObjectCalls.EveryCallAnsweredOnce` | actias-worker-core/src/objects.rs:58-82 | answered, queued and in-flight calls always add up to the calls made; none is answered twice and none is forgotten once the object is down |
| `ObjectCalls.SendOutcome` | actias-worker-core/src/objects.rs:58-82 | a call is queued last while fewer than 128 are, waits while they are not, and is told Gone when there is no task |
| `ObjectCalls.EndsExactly` | actias-worker-core/src/objects.rs:356-389 | a waiting task hibernates if and only if no alarm is armed, telling the queued that it is gone, and ends for want of senders if and only if nobody is queued |
| `ObjectCalls.CallsRunInArrivalOrder` | actias-worker-core/src/objects.rs:349-405 | calls are dispatched in arrival order, each at most once, across crashes and respawns |
| `ObjectCalls.FileIsReplayInArrivalOrder` | actias-worker-core/src/objects.rs:349-506 | over every run the logged calls are the popped ones but for the one in dispatch, in arrival order, and the durable content is the left fold of that log; at every reply the main file too |
| `ObjectCalls.AnswersAreTruthful` | actias-worker-core/src/objects.rs:390-403 | a returned verdict is that of a dispatch in the log; without crashes, a caller told Gone was never dispatched |
| `ObjectAlarms.FiringIsLatestArming` | actias-worker-core/src/objects.rs:409-440 | every alarm dispatch carries the latest arming committed before it and not consumed since |
| `ObjectAlarms.NeverEarly` | actias-worker-core/src/objects.rs:356-374 | over every run no alarm is dispatched before its due time |
| `ObjectAlarms.DueAlarmFires` | actias-worker-core/src/objects.rs:356-374 | a waiting task with an alarm due dispatches that alarm, cleared from every home first |
| `ObjectAlarms.PersistedAlarmFiresOnWake` | actias-worker-core/src/objects.rs:316-347 | an alarm persisted and past its time is dispatched right after the object is spawned again |
| `ObjectAlarms.AlarmFiresAtMostOnce` | actias-worker-core/src/objects.rs:192-202 | no arming is dispatched twice, over any sequence of crashes and respawns on one file, with or without storage |
| `ObjectAlarms.FailedArmingNeverFires` | actias-worker-core/src/objects.rs:204-224 | an alarm armed by a failed or interrupted method is never dispatched unless a mid-body commit had made it durable |
| `Registry.NodeRegistry.Register` | actias-script-service/src/node_registry.rs:248-267 | a fresh id, beating now, told a third of the ttl and at least one second |
| `Registry.NodeRegistry.Heartbeat` | actias-script-service/src/node_registry.rs:269-293 | accepted exactly when the node is live; refused otherwise and never revived |
| `Registry.NodeRegistry.DeleteNodes` | actias-script-service/src/node_registry.rs:160-162 | deleting nodes deletes exactly the leases they hold, leaves every other node's lease in place, and touches no epoch |
| `Registry.NodeRegistry.Reap` | actias-script-service/src/node_registry.rs:163-169 | every node left is live |
| `Registry.NodeRegistry.Claim` | actias-script-service/src/node_registry.rs:173-243 | the statements of a claim equal its specification; an acquired lease is held by the asker, live at that instant, under the object's epoch |
| `Registry.NodeRegistry.GetLease` | actias-script-service/src/node_registry.rs:335-368 | a holder is only ever reported live, with the object's epoch |
| `Registry.NodeRegistry.Deregister` | actias-script-service/src/node_registry.rs:370-386 | age-out brought forward: the same cascade |
| `Registry.NodeRegistry.ReleaseLease` | actias-script-service/src/node_registry.rs:388-406 | only the holder's release frees the lease |
| `Cluster.EpochsIdentifyHolders` | actias-script-service/src/node_registry.rs:163-243 | in every run a first grant lies strictly above all earlier ones, a re-claim repeats its holder's epoch, equal epochs mean the same node, and the current holder has the object's highest epoch and is registered |
| `Cluster.EpochsNeverFall` | actias-script-service/src/node_registry.rs:217-236 | no step of any run from any state lowers an object's epoch |
| `Cluster.NodeRowMoves` | actias-script-service/src/node_registry.rs:160-169 | a node's row moves only by its own accepted beat and goes exactly when the node deregisters or is past its ttl at a reap |
| `Cluster.LeaseLostExactly` | actias-script-service/src/node_registry.rs:163-216 | from any state a held lease is lost if and only if its holder releases it, its holder deregisters, or a reap finds its holder past the ttl |
| `Cluster.ClaimDecided` | actias-script-service/src/node_registry.rs:173-243 | a claim is decided by liveness: a live holder stands and is named under its epoch, else a live asker gets the lease under the next epoch, else nobody does |
| `Cluster.AcquiredIsLive` | actias-script-service/src/node_registry.rs:173-216 | a claim answered `acquired` went to a node live before and after it |
| `Cluster.DeadStaysDead` | actias-script-service/src/node_registry.rs:269-293 | a node past its ttl is never live again under that id, over any later run |
| `Cluster.TwoIntervalsFit` | actias-script-service/src/node_registry.rs:149-153 | two advertised intervals fit inside the ttl if and only if the ttl is at least 3 |
| `Cluster.PunctualStaysLive` | actias-script-service/src/node_registry.rs:149-169 | from 3 seconds up, a node that tries every two intervals is never reaped and finds itself live at each beat, over runs of any length |
| `Cluster.IntervalIsAThird` | actias-script-service/src/node_registry.rs:149-153 | the advertised interval is a third of the ttl rounded down, and one second below 3 |
| `Cluster.PunctualHolderKeepsLease` | actias-script-service/src/node_registry.rs:149-216 | over runs of any length a holder that beats at least every two intervals keeps its lease and epoch, whoever else claims, releases or dies, and every claim is answered with its name |
| `Cluster.ShortTtlReapsPunctualNode` | actias-script-service/src/node_registry.rs:149-169 | below 3 seconds a node exactly as punctual as that is reaped |
| `ClaimRace.FreshEpochsDistinct` | actias-script-service/src/node_registry.rs:185-236 | statement by statement, under every interleaving, no two fresh claims are told the same epoch |
| `ClaimRace.UndisturbedClaim` | actias-script-service/src/node_registry.rs:185-243 | left alone, the statements give a free lease to the asker under the next epoch, and name a holder under its epoch, acquired exactly when it is the asker's node |
| `ClaimRace.UnpausedClaimsKeepOrder` | actias-script-service/src/node_registry.rs:185-229 | a claim that finished before another began has the lower epoch, over every interleaving of the rest |
| `ClaimRace.EpochsFollowLeasesExactly` | actias-script-service/src/node_registry.rs:185-236 | over every interleaving, epochs follow the order of the lease inserts if and only if no claim bumps after a later winner has |
| `ClaimRace.HolderIsHighestExactly` | actias-script-service/src/node_registry.rs:185-236 | the holder, once told, has the highest epoch if and only if no claim that won the lease before it bumped after it |
| `ClaimRace.AcquiredNamesAnotherExactly` | actias-script-service/src/node_registry.rs:209-216 | a claim is answered `acquired` with another node's name if and only if its row was freed and taken by that node between its insert and its read of the holder |
| `ClaimRace.MissedByLaterWinner` | actias-script-service/src/node_registry.rs:209-216 | the node named then is that of a claim that won the lease after it |
| `ClaimRace.RacedExactly` | actias-script-service/src/node_registry.rs:209-215 | a claim fails as raced if and only if no row was there when it came to read the holder |
| `ClaimRace.SharedEpochsExactly` | actias-script-service/src/node_registry.rs:209-236 | claims of different nodes are never answered `acquired` under one epoch if and only if no re-claim reads the epoch while the last bump was another node's, and before any bump no re-claim and no first bump follows another node's re-claim that took the missing row's default |
| `ClaimRace.ReclaimSharesAnEpoch` | actias-script-service/src/node_registry.rs:209-236 | a re-claim between its own node's insert and bump is answered `acquired` under the previous holder's epoch |
| `ClaimRace.PausedClaimIsOvertaken` | actias-script-service/src/node_registry.rs:185-236 | a claimant paused between its statements ends up with the higher epoch although its successor holds the lease, and is told its successor's node |
| `ObjectStore.BlobStore.Ship` | actias-worker/src/object_store.rs:41-79 | refused exactly when a newer epoch has shipped; otherwise snapshot and manifest are this ship's, or, where a request fails, what had been put by then |
| `ObjectStore.BlobStore.Restore` | actias-worker/src/object_store.rs:83-109 | the stored snapshot, or nothing when no manifest was ever put |
| `Fence.EpochsSeparateWorkers` | actias-worker/src/routing.rs:262-275 | two tasks of one object on different workers never carry the same epoch |
| `Fence.StoreIsLastShip` | actias-worker/src/object_store.rs:41-79 | the manifest is the last whole ship's, whose epoch is the highest shipped; the snapshot is the last one put, under no lower epoch; both are of one ship unless that put was of an upload that failed before its manifest, and always in runs without such failures |
| `Fence.ManifestWithinEpoch` | actias-worker/src/object_store.rs:8-18 | the stored manifest never carries an epoch the registry has not reached |
| `Fence.ManifestNeverFalls` | actias-worker/src/object_store.rs:41-58 | no step of any run lowers the manifest epoch |
| `Fence.ZombieShipsNothing` | actias-worker/src/object_store.rs:47-56 | once a newer epoch has shipped, an ex-holder's uploads, whole or failing half way, change nothing, however much later |
| `Fence.RestoreYieldsHighestShip` | actias-worker/src/routing.rs:277-292 | a spawn on a worker with no local file starts from nothing if nothing ever shipped whole, and else from the last snapshot put, under an epoch no ship exceeds |
| `ShipRace.OnlyOvertakenUploadsLowerTheManifest` | actias-worker/src/object_store.rs:41-79 | request by request, only an upload that a newer manifest overtook after its check can lower the stored epoch |
| `ShipRace.ManifestNeverFallsExactly` | actias-worker/src/object_store.rs:41-79 | over every interleaving the stored epoch never falls if and only if no upload puts its manifest after a newer one landed since its check |
| `ShipRace.UndisturbedShip` | actias-worker/src/object_store.rs:41-79 | left alone, an upload stores its own snapshot and manifest if and only if nothing newer is stored, and leaves no trace otherwise |
| `ShipRace.UnoverlappedShipsMatch` | actias-worker/src/object_store.rs:41-79 | while no put falls inside another upload, snapshot and manifest at rest match |
| `ShipRace.ShipsMatchExactly` | actias-worker/src/object_store.rs:41-79 | at every instant of every interleaving, dead uploads included, the stored snapshot is the manifest's own if and only if the last put to go through was neither a manifest whose snapshot another upload had overwritten nor a snapshot still without its manifest |
| `ShipRace.InterleavedShipsMismatch` | actias-worker/src/object_store.rs:59-76 | two interleaved uploads leave the one's snapshot under the other's manifest |
| `ShipRace.HalfShipMismatches` | actias-worker/src/object_store.rs:59-76 | one upload that dies between its puts leaves its snapshot under the manifest found there |
| `ShipRace.LateZombieOverwrites` | actias-worker/src/object_store.rs:47-76 | an ex-holder that checked in time and put late overwrites its successor |
| `Failover.SnapshotStands` | actias-worker/src/object_store.rs:41-79 | a shipped snapshot stands through any cluster run until an upload of its own epoch or a newer one puts something, whatever older epochs upload |
| `Hosting.ClusterRuns` | actias-worker/src/routing.rs:262-396 | the cluster's part of a joint run is a run of the cluster, so the fence and epoch results hold of it |
| `Hosting.HostsAreReplays` | actias-worker/src/routing.rs:262-396 | over every joint run each worker's task is a run of the object's machine, its file is the replay of everything logged since the object was nothing, through whatever workers and restores it came, and so is the stored snapshot |
| `Failover.InStepExact` | actias-worker/src/routing.rs:277-396 | over every run, uploads that fail included, a live task is in step, read off the last spawn, gate or landed upload that moved either side, if and only if the store holds the bytes its gate last saw |
| `Failover.HeldAtReply` | actias-worker-core/src/objects.rs:489-506 | at every reply without a schema statement kept, the store holds the replay of the worker's whole log if and only if its current task spawned over a file equal to the snapshot or its gate ran since, that upload landed or carried nothing new, and no other bytes landed since; with one kept, the same as long as it changed nothing, and otherwise a worker in step answers from a store that is behind |
| `Failover.SurvivesExactly` | actias-worker/src/routing.rs:277-292 | a stored upload survives every continuation if and only if every worker with a file of the object has one descending from it |
| `Failover.FailoverContinuesTheLog` | actias-worker/src/routing.rs:277-292 | after a reply in step with the store, with every file descending from the stored ship, the next worker without a file starts from the replay of everything logged before that answer, continued by what was shipped since, whatever happens in between |
| `FailoverLosses.FencedAnswerIsLost` | actias-worker/src/routing.rs:378-386 | a concrete run: an ex-holder answers Ok, its file has the row, the fence refused its ship and the store holds the successor's content |
| `FailoverLosses.SuccessorErasesAnswer` | actias-worker/src/object_store.rs:47-56 | a concrete run: an ex-holder's ship lands and is answered after its successor restored, and the successor's first ship erases it |
| `FailoverLosses.UnshippedCommitIsAnswered` | actias-worker-core/src/objects.rs:226-239 | a concrete run: a commit whose gate never ran is answered from after a restart while the store holds nothing |
| `FailoverLosses.FailedUploadIsAnswered` | actias-worker/src/routing.rs:366-386 | a concrete run: a call whose upload failed before its snapshot or before its manifest is answered Ok while a restore finds nothing |
| `Envelope.SealIsGenuine` | actias-secret-service/src/envelope.rs:83-100 | what a keyring seals it opens to the same value, under its active label and with the data key and nonces it was given |
| `Envelope.OpensExactlyForItsMaster` | actias-secret-service/src/envelope.rs:104-117 | a genuine row opens exactly for keyrings whose label names the master that wrapped it, and fails as unknown or corrupt otherwise |
| `Envelope.RewrapMovesMaster` | actias-secret-service/src/envelope.rs:119-132 | a re-wrap succeeds exactly when the old master is held, leaves nonce and ciphertext alone, and the new master opens the same value |
| `Envelope.RotationCompletesExactly` | actias-secret-service/src/envelope.rs:61-76 | a rotation from one master to the next completes exactly when the new master has its own label or is the same key |
| `SecretTable.SecretService.Head` | actias-secret-service/src/secret_service.rs:66-77 | the newest version's row |
| `SecretTable.SecretService.TryInsert` | actias-secret-service/src/secret_service.rs:109-145 | the primary key admits exactly the next version |
| `SecretTable.SecretService.SetSecret` | actias-secret-service/src/secret_service.rs:81-147 | gives up exactly when a rival landed in each of its three read-insert windows; otherwise the row of its first undisturbed window is the new head and no other row changed |
| `SecretTable.SecretService.DeleteSecret` | actias-secret-service/src/secret_service.rs:149-186 | tombstones exactly the head it read, unless a rival deleted it first; every other version stays as it was, a refused delete changes nothing of its own, and the name stays listed only if newer versions landed |
| `SecretTable.SecretService.ListSecrets` | actias-secret-service/src/secret_service.rs:188-219 | the names whose head is live |
| `SecretTable.SecretService.ResolveSecret` | actias-secret-service/src/secret_service.rs:247-321 | a pin resolves whatever its tombstone, the head only without one |
| `SecretRuns.VersionsBelongToTheirSets` | actias-secret-service/src/secret_service.rs:81-147 | with any number of interleaved calls, versions of a name are exactly 1..n and each belongs to the one set that returned it |
| `SecretRuns.AbortMeansThreeRivals` | actias-secret-service/src/secret_service.rs:94-146 | a set that gives up saw at least three versions land since it began, all by others |
| `SecretRuns.ThirdConflictAborts` | actias-secret-service/src/secret_service.rs:94-146 | a version taken meanwhile is tried again twice; the third conflict gives up |
| `SecretRuns.UndisturbedSet` | actias-secret-service/src/secret_service.rs:81-147 | a set nobody comes between stores the next version and the name resolves to its value at once |
| `SecretRuns.UndisturbedDelete` | actias-secret-service/src/secret_service.rs:149-186 | a delete nobody comes between hides the name at once |
| `SecretRuns.RotationMovesLabel` | actias-secret-service/src/envelope.rs:119-132 | a rotation that holds a row's label moves it under the active one, keeps everything else of the row and changes nothing about how its pin resolves |
| `SecretRuns.PinResolvesToItsValue` | actias-secret-service/src/secret_service.rs:263-276 | after any sets, deletes and rotations a pin resolves to the value its set stored, exactly for keyrings holding the row's label |
| `SecretRuns.HeadResolvesToItsValue` | actias-secret-service/src/secret_service.rs:255-321 | over every run an unpinned resolve finds nothing exactly when the name has no versions or its newest is tombstoned, and otherwise answers the newest version with the value its own set stored, exactly for keyrings holding the row's label |
| `SecretRuns.LatestSetIsResolved` | actias-secret-service/src/secret_service.rs:255-321 | the set whose version is newest is what the name resolves to, if and only if nothing deleted it and its label is at hand |
| `SecretRuns.PinFoundExactly` | actias-secret-service/src/secret_service.rs:263-276 | a pin finds nothing if and only if no set was given that version of that name |
| `SecretRuns.ListingIsHeadResolution` | actias-secret-service/src/secret_service.rs:188-219 | the listing shows exactly the names that resolve without a pin |
| `SecretRuns.TombstonesBelongToTheirDeletes` | actias-secret-service/src/secret_service.rs:163-186 | tombstones and successful deletes correspond one to one; a delete hides its name unless a version newer than it read landed |
| `KvStore.TypeRoundTrip` | actias-kv/src/database.rs:492-517 | a stored value type reads back as itself |
| `KvStore.Database.CreateNamespace` | actias-kv/src/database.rs:251-264 | registers the namespace, or refuses an id that does not parse |
| `KvStore.Database.Set` | actias-kv/src/database.rs:196-226 | writes in order and registers each namespace, stopping at the first id that does not parse with the earlier writes done |
| `KvStore.Database.Delete` | actias-kv/src/database.rs:232-245 | deletes in order, stopping at the first id that does not parse |
| `KvStore.Database.DeleteNamespace` | actias-kv/src/database.rs:271-293 | the partition and its registry row go |
| `KvStore.Database.DeleteProject` | actias-kv/src/database.rs:299-315 | a loop over the registered namespaces drops exactly their partitions, then the registry |
| `KvStore.FakeKv.SetPairs` | actias-cli/src/testing.rs:75-83 | the batch folded into the flat map |
| `KvStore.FakeKv.DeletePairs` | actias-cli/src/testing.rs:108-117 | the named pairs go |
| `KvStore.FakeKv.DeleteProject` | actias-cli/src/testing.rs:159-169 | a scan of everything keeps the other projects |
| `KvStore.FakeKv.DeleteNamespace` | actias-cli/src/testing.rs:171-181 | a scan of everything keeps the other namespaces |
| `KvStore.RunsAgree` | actias-kv/src/database.rs:169-315 | over every sequence of operations every namespace holding pairs is registered, and the tables and the flat map hold the same pairs |
| `KvStore.FakeIsFaithful` | actias-cli/src/testing.rs:60-182 | every get is answered alike, on canonical project ids |
| `KvStore.GetIsLastWrite` | actias-kv/src/database.rs:169-315 | a get answers with the last pair written under its key and not deleted since, read off the operations alone |
| `KvStore.RegistryNamesExactly` | actias-kv/src/database.rs:196-315 | over every run the registry names exactly the namespaces created or written into and not deleted since, whatever spelling of the project's id was used |
| `KvStore.FaithfulExactlyWhenCanonical` | actias-kv/src/database.rs:154-191 | store and fake agree on a project over every sequence of operations if and only if its id is already in printed form |
| `KvStore.FakeStandsIn` | actias-cli/src/testing.rs:20-182 | over every sequence of operations on one arbitrary id, the fake answers every get as the service does on a canonical id, up to that id |
| `Identity.PrintedParsesBackExactly` | actias-worker-core/src/identity.rs:52-62 | a printed key reads back if and only if scope and class are non-empty and slash-free and the name is non-empty |
| `Identity.ParsedPrintsBack` | actias-worker-core/src/identity.rs:99-103 | every string that parses prints back to itself |
| `Identity.PrintIsInjective` | actias-worker-core/src/identity.rs:85-91 | two well-formed keys never share the string their object id is hashed from |
| `HostRoute.HostRoutesBack` | actias-worker/src/server.rs:241-271 | all four host forms route back to their target, with or without a port |
| `HostRoute.HostsAreNeverConfused` | actias-worker/src/server.rs:241-271 | no two well-formed targets share a host |
| `HostRoute.RoutedRendersBack` | actias-worker/src/server.rs:241-271 | whatever routes renders back to its host |
| `HostRoute.AliasLabel` | actias-script-service/src/script_service.rs:1014-1033 | for aliases of the right shape, the reserved prefixes are exactly the ones that would misroute |
| `LikePrefix.BuildPattern` | actias-script-service/src/node_registry.rs:101-111 | the loop's pattern matches exactly the strings that start with the prefix |
| `LikePrefix.MatchesExactlyThePrefixed` | actias-script-service/src/node_registry.rs:99-111 | for all strings, LIKE on the escaped prefix means starts-with |
| `Routing.ResolveClassOwner` | actias-script-service/src/script_service.rs:860-905 | the answer declares the class in the strongest member anybody declares it in and has the lowest id among those who do, or is the directory's; absence means neither knows it |
| `Routing.OwnersByClass` | actias-script-service/src/script_service.rs:54-88 | a queue is answered with a consumer if any script declares one and with a producer only otherwise; databases, workflows and classes by their own declarations; the directory only where nobody declares |
| `Routing.OwnerOwnsKey` | actias-worker/src/routing.rs:73-129 | the owner resolved for a key derives that same key under the scope rule |
| `Routing.ClaimKeepsDirectory` | actias-script-service/src/node_registry.rs:200-216 | recording a claim's owner keeps the directory true to the scope rule |
| `Routing.DirectoryAlwaysOk` | actias-script-service/src/node_registry.rs:196-207 | however scripts are published and removed and resolved owners claimed, the directory stays true to the scope rule |
| `Routing.RoutedAtMostOnce` | actias-worker/src/routing.rs:482-561 | whatever every service answers, a call crosses at most one node boundary and reaches at most one mailbox, once; only a database read succeeds without one |
| `Routing.DeliveredHere` | actias-worker/src/routing.rs:530-560 | a call to an object whose mailbox is open here is delivered, once, with the stack it came with and its target on top, and its answer is the answer |
| `Routing.DeliveredThere` | actias-worker/src/routing.rs:418-480 | a call to an object open on the holder it reaches is delivered there over one hop, the same way |
| `Routing.DeliveredExactly` | actias-worker/src/routing.rs:482-561 | a call is delivered if and only if it does not re-enter its stack and finds an open mailbox here or, where it may be forwarded, on the holder |
| `Routing.RefusalsAreNamed` | actias-worker/src/routing.rs:524-542 | a re-entrant call, a closed mailbox, a refused placement, a second forward and an unreachable holder each get their own error |
| `Routing.DeliveredAsSent` | actias-worker/src/routing.rs:482-561 | the mailbox reached is the sender's key's, with arguments, caller and extended chain unchanged; a target lower on the stack is delivered nowhere |
| `Routing.DeliveredChain` | actias-worker-core/src/objects.rs:508-527 | the chain a target sees is the caller's chain with the target appended, or unchanged where a forward had appended it; a target lower on the stack is delivered nowhere |
| `Routing.ReceiverRebuilds` | actias-worker/src/data_plane.rs:219-256 | the receiver of a forward rebuilds the sender's key, keeps its chain and does not forward again |
| `Routing.ChainsStayClean` | actias-worker-core/src/objects.rs:508-527 | however calls nest across nodes, every delivered chain is duplicate-free, ends in its target and holds all of the chain it continues, so no object on the stack is entered again |

## Left out

- A commit that fails: the dispatch returns early without rollback or resync, so the invariants are not meant to survive it.
- Panics inside a dispatch: they are crashes here, and the call in flight is answered Gone.
- The Lua runtime, queue, cron and workflow bodies, migrations and `init`: a body is any list of operations.
- That at most one node runs an object: a resident object skips the claim, so only the store is fenced.
- A restore whose file write fails half way and leaves a broken local file.
- A task replaced while resident because a new revision was published: the old one may still drain over the same file.
- Failover.HeldAtReply: for a worker out of step that also kept a schema statement with effect, whether the store's content happens to be the same is left open.
- ObjectStorage.SqliteStorage.Exec: the count reported for a schema statement, which SQLite leaves at the previous statement's, and SQL errors other than a missing table.
- Alarms at most once across nodes: a restored snapshot may still hold an alarm fired elsewhere.
- Delivery order of the asynchronous alarm mirror: only the value last handed to it is modelled.
- The worker's endless register-and-beat loop: its registrations and beats are steps of `Cluster`.
- Request validation, the instance directory's listings, alarms in the registry, load and capabilities of nodes: plain table reads and writes.
- Key/value pairs with a ttl, paging and namespace counts.
- Path routing, live sessions and revision loading behind a route.
- gRPC, S3, Redis, Scylla and Postgres themselves, caches, metrics, the web console and the command line: plumbing.
