# Longhorn Manager: a verified model

Longhorn Manager is the control plane of a block-storage system. It places replicas on
hosts, attaches and detaches volumes, watches their health and rebuilds them, runs recurring
snapshot and backup jobs, and keeps its metadata in a key/value store. This project models
its stateful core in Dafny and proves properties of every run, every schedule and every
reachable state of that model.

`dafny verify dfyconfig.toml` checks everything.

| component | modules | form |
|---|---|---|
| recurring-job retention | `Timestamps`, `Retention`, `CleanupCalls`, `RecurringJobs`, `RetentionRuns` | classes with the source's loops and cache fields, over a remote listing that may fail and change; a state machine for overlapping runs |
| key/value store | `Paths`, `KeyListing`, `StoreTypes`, `StoreKeys`, `StoreView`, `KVStore` | the memory backend's string work and iteration order, classes for the backend and the store |
| queue, worker, registry | `TaskQueue`, `BgTasks`, `Registry` | event loops proved against history functions of their requests |
| goroutine fan-out | `FanOut` | a small language of `wg.Add`, `go` and channel sends, run under every schedule |
| placement | `Scheduler` | the two priority lists, the fallback loop and the creation loop |
| instances | `Instances`, `BadMarks` | containers and records; what docker and the store answer is a parameter of every request |
| lifecycle, rebuild, monitor | `VolumeFrames`, `Calls`, `Lifecycle`, `Rebuild`, `Monitor` | the manager's operations on those instances, with a trace of their calls; state machine of checks and adds; the health check's errors and the monitor's loop |

Docker, the engine, the backup store and the network may do anything: each call may succeed or
fail, and where it matters a failed call may still have taken effect. What they answer is a
parameter or is recorded in a trace, so that every failure is tied to the answer that caused it,
and operations are also proved to succeed when nothing outside fails. Maps are
iterated in arbitrary order. Clocks, random names and ticks are parameters or arbitrary
values. JSON encoding is the identity on the modelled fields.

## What turned out to be false of the code

The model follows the code. These expectations do not hold; each has a concrete trace or
state and, where there is one, the exact condition under which the code behaves.

- Overlapping runs of one snapshot job can leave fewer than Retain snapshots, because a fresh
  listing already counts a creation that its own run counts again
  (`RetentionRuns.OverlapDeletesTooMuch`). The overlap at the last listing is exactly how many
  are missing (`RetentionRuns.OverlapIsTheShortfall`).
- With a negative Retain a cleanup never exits (`RetentionRuns.NegativeRetainNeverExits`).
- A backup job also sees, and deletes, backups of jobs whose names extend its own with a dash
  (`RecurringJobs.WhichBackupsAJobSees`, an if-and-only-if).
- A snapshot job also counts, and deletes, the snapshots that a backup job of its name takes
  (`RecurringJobs.WhichSnapshotsAJobSees`, an if-and-only-if); job names need not be unique.
- The memory backend's key listing can miss a child or index out of range, depending on map
  order; it is exact for every order if and only if the store is stable below the prefix
  (`KeyListing.ListingExactIffStable`).
- On the memory backend, deleting a volume also deletes the base of every volume whose name
  starts with its name (`StoreView.DeleteThenGet`, an if-and-only-if), and its instances come
  back when a volume of that name is created again (`StoreView.DeletedInstancesResurface`).
- Marking a replica bad stores nothing (`StoreView.BadMarksAreLost`), so no replica is ever
  marked in a store that the manager's writes can reach (`BadMarks.NoMarkIsEverStored`).
- A controller whose URL changed is replaced without its queue being closed, so its worker
  never ends (`Registry.ClosedIffCleanedUp`, an if-and-only-if).
- Once docker has made a controller's container, every failure to bring the controller up leaves
  that container behind (`Instances.FailedControllerLeaves`; it does happen,
  `Instances.FailedStartHappens`): a failed start loses the pointer to it, and later it is
  running, so docker does not remove it. Until somebody deletes it every creation of that name on
  that host fails (`Instances.LeftoverBlocks`), and no sequence of attaches, detaches and deletes
  gets rid of it, so no later attach of the volume there succeeds (`Lifecycle.Manager.Operate`).
  Every container is recorded at all times if and only if no request leaves one behind, which the
  answers of docker and the store decide (`Instances.NoOrphansIff`).
- Attaching a volume that does not exist crashes. There is also a latent crash on a replica with
  a readable bad mark (`Lifecycle.Manager.Attach`, exact for detached volumes); since no mark is
  ever stored, an attach of an existing volume cannot reach it and uses all replicas.
- Creating a replica of a volume that does not exist reports success without a replica
  (`Scheduler.VolumeRecord.CreateReplica`).
- A host that is gone when the scheduler looks it up can crash a search: some order of the hosts
  does, if and only if such a host is free or every free host refuses (`Scheduler.CrashIff`).
- More than one replica can be added at a time, and more replicas than wanted can result
  (`Rebuild.OvertakingExceeds`, `Rebuild.StaleListingExceeds`). At most one add is in flight
  if and only if no check overtakes a goroutine that has not raised the counter
  (`Rebuild.OneAddIff`), and the wanted number is never exceeded if and only if no check creates
  a replica while there are enough (`Rebuild.NeverExceedsIff`).
- The monitor retries nothing but failed calls on ERR replicas. A failure to list the replicas, or
  to create or start a replacement for a volume that still has good ones, detaches the volume at
  once, because its error carries a cause (`Monitor.CheckController`, `Monitor.Watcher.Watch`).
- A check that finds no good replica left detaches the volume itself and thereby closes the channel
  of its own monitor. If that detach succeeds, or fails to stop a replica, the monitor just ends.
  If it cannot stop or remove the controller, or cannot stop a replica after three checks in a row
  with failed calls on ERR replicas, the monitor closes the closed channel and the process crashes
  (`Monitor.DetachingCheckEnds`; it does happen, `Monitor.CrashHappens`).

## Model

| member | source | states |
|---|---|---|
| `Timestamps.StringOrderIsChronological` | util/time.go:22-24 | For all valid UTC second-resolution timestamps in the fixed-width format of RFC 3339 section 5.6, byte order of the strings is order in time, and equal strings are equal instants |
| `Timestamps.StringOrderIsFieldOrder` | manager/cron.go:162 | Comparing two formatted timestamps as strings compares their fields from year to second |
| `Timestamps.FieldOrderIsTimeOrder` | util/time.go:22-24 | Field order is order in time, month lengths and leap years included |
| `Retention.FreshListing` | manager/cron.go:176-183 | A listing of all live items, oldest first, makes the cache exact and the account right, whatever was counted before |
| `Retention.ExactAfterDelete` | manager/cron.go:184-192 | Deleting the head of an exact cache keeps it an oldest-first prefix of the live items and keeps only newest items |
| `Retention.ExactAfterCreate` | manager/cron.go:140-144 | Creating an item no older than the live ones keeps the cache exact once it is counted |
| `Retention.AccountedAfterDrift` | manager/cron.go:171-198 | The account survives whatever other runs create or outsiders delete between two remote calls |
| `Retention.AccountedAfterDelete` | manager/cron.go:184-192 | The account survives a deletion, also of an item that was already gone |
| `Retention.SimpleAlgorithmPrunes` | manager/cron.go:156-198 | Reference: sorting and keeping the last Retain items keeps exactly the newest min(Retain, n) |
| `Retention.PruningIsUnique` | manager/cron.go:156-198 | With distinct creation times there is only one way to keep the newest min(Retain, n), so cached and simple cleanup agree |
| `Retention.IncrementalPruning` | manager/cron.go:174-197 | Pruning after each creation equals pruning the whole history once |
| `RecurringJobs.WhichBackupsAJobSees` | manager/cron.go:242-250 | Exactly which jobs' backups pass a job's name-prefix filter |
| `RecurringJobs.DashFreeJobsSeeTheirOwn` | manager/cron.go:242-250 | Jobs named without a dash see exactly their own backups |
| `RecurringJobs.WhichSnapshotsAJobSees` | manager/cron.go:146-154 | Exactly whose snapshots the cleanup of a snapshot job and of a backup job counts: by maker, labels and whether it is deleted already |
| `RecurringJobs.DeletedThenPurged` | manager/cron.go:184-196 | A deleted snapshot keeps its place until the next purge, a deleted backup does not; nothing else is touched |
| `CleanupCalls.PlanShape` | manager/cron.go:174-198 | What a cleanup asks for when nothing fails: nothing if and only if a listing is cached and no more than Retain are counted; one listing if and only if nothing is cached or the cache holds fewer than have to go; a purge at the end, for the snapshot job only |
| `RecurringJobs.SortByCreated` | manager/cron.go:162 | Sorting yields the same items, oldest first |
| `RecurringJobs.FilteredKeeps` | manager/cron.go:146-154 | The filter keeps exactly the live items of the job, without duplicates |
| `RecurringJobs.JobCache.ListItems` | manager/cron.go:156-164 | Filtering and sorting a remote listing yields exactly the live items of the job, oldest first |
| `RecurringJobs.JobCache.Cleanup` | manager/cron.go:174-198 | It succeeds if and only if every remote call does; the calls are a listing where one is needed, one delete for each item in excess, oldest first, and a purge after each round of the snapshot job, up to the first failure; the cache is what the answers make of it. At most two rounds and one listing whatever happens meanwhile; success leaves at most Retain items plus those not yet counted; without overlap the cache tracks the live items exactly, the survivors are the newest Retain, and what the job does not see is left alone |
| `RecurringJobs.SnapshotTask.Cleanup` | manager/cron.go:166-198 | The same for the snapshot job, and no call is made when Retain is 0 |
| `RecurringJobs.SnapshotTask.Run` | manager/cron.go:137-144 | A run creates and cleans up, and succeeds if and only if every call does; a failed creation changes nothing and is followed by no call; with Retain 0 the snapshot just stays; an undisturbed run keeps the cache exact and prunes |
| `RecurringJobs.SnapshotTask.RunHistory` | manager/cron.go:137-198 | Over any sequence of non-overlapping runs with non-decreasing creation times, from whatever snapshots are there at the start, failed creations and cleanups included: the count is the live count, the cache an oldest-first prefix of the live snapshots, the survivors are a newest part of everything there was or was created, and whenever at most Retain are counted exactly the newest min(Retain, n); if no call of a cleanup fails, that is so as soon as one snapshot was created |
| `RecurringJobs.JobCache.RunHistory` | manager/cron.go:280-336 | The same for the items of any of the three cleanups, backups and backup snapshots included |
| `RecurringJobs.BackupTask.CleanupBackups` | manager/cron.go:280-309 | The same guarantee over backups in a backup store, without purges; no call when Retain is 0 |
| `RecurringJobs.BackupTask.CleanupBackupSnapshots` | manager/cron.go:311-336 | The same guarantee over backup snapshots with their fixed retention, without purges |
| `RecurringJobs.BackupTask.Cleanup` | manager/cron.go:273-278 | Both cleanups make the calls of their plans; a failure of the first does not prevent the second, which decides the result |
| `RetentionRuns.RetentionHolds` | manager/cron.go:137-198 | Under every interleaving of runs, failures, outside creations and losses, and with the early return for Retain 0: once a listing is cached, live items never exceed the count plus the runs that created and have not cleaned up; after a successful cleanup they never exceed Retain plus those; a cleanup makes at most one listing and two rounds |
| `RetentionRuns.RetentionFromStart` | manager/cron.go:137-198 | From the start: when no run is pending after a successful cleanup, at most Retain items are live |
| `RetentionRuns.HolderProgresses` | manager/cron.go:175-197 | Every step of the run that holds the lock brings its cleanup closer to the end, for Retain of at least 0 |
| `RetentionRuns.HolderCanMove` | manager/cron.go:175-197 | The run that holds the lock is never stuck |
| `RetentionRuns.HolderChoice` | manager/cron.go:175-196 | Which step the run that holds the lock takes next is decided by the count and the cache |
| `RetentionRuns.ZeroRetainKeepsAll` | manager/cron.go:166-169 | With Retain 0, over every run: nobody takes the lock, counts, lists or deletes, and every run that returns is no longer pending |
| `RetentionRuns.NegativeRetainNeverExits` | manager/cron.go:175 | With a negative Retain the loop's exit is never enabled |
| `RetentionRuns.OvercountIsOverlap` | manager/cron.go:171-183 | As long as no snapshot is lost behind its back, count plus pending runs plus uncounted creations equals live snapshots plus the creations that a listing saw before their run counted them |
| `RetentionRuns.DeletionLeaves` | manager/cron.go:184-192 | A deletion never leaves fewer than Retain items less that overlap |
| `RetentionRuns.OverlapIsTheShortfall` | manager/cron.go:171-192 | In any run that loses nothing, once nothing is pending exactly the counted and the uncounted items less the overlap are live |
| `RetentionRuns.OverlapDeletesTooMuch` | manager/cron.go:137-198 | A trace of two overlapping runs that ends with one snapshot where Retain is two |
| `Paths.SplitRender` | kvstore/memory.go:92-94 | Splitting a rendered path gives its segments back |
| `Paths.SplitRejoins` | kvstore/memory.go:92-94 | For every string: the parts hold no slash, are one more than the slashes, and joined again are the string |
| `Paths.Trimmed` | kvstore/memory.go:92 | Trimming takes off all leading slashes and nothing else |
| `Paths.DotsResolved` | kvstore/volume.go:25-63 | How the path cleaning of a join treats "..", "." and empty parts |
| `Paths.JoinAppends` | kvstore/volume.go:25-63 | Joining a rendered path and a segment renders the extended path |
| `Paths.RenderInjective` | kvstore/volume.go:25-63 | Different paths have different keys |
| `Paths.PrefixOfRendered` | kvstore/memory.go:82 | Exactly when one key is a string prefix of another, in terms of segments |
| `KeyListing.StableListsExactly` | kvstore/memory.go:65-105 | For every iteration order, a stable store lists each child of the prefix once and nothing else, without an index panic |
| `KeyListing.ShortKeyPanics` | kvstore/memory.go:94-96 | A key that has the prefix as a string but no deeper segments makes some order panic |
| `KeyListing.LongerSiblingMissed` | kvstore/memory.go:71-80 | A sibling whose name extends another's is missed in some order |
| `KeyListing.ListingExactIffStable` | kvstore/memory.go:65-105 | The listing is exact for every iteration order if and only if the store is stable below the prefix |
| `StoreKeys.TopKeys` | kvstore/kvstore.go:41-48 | The joined host, settings and volume keys are the paths of their slots |
| `StoreKeys.VolumeKeys` | kvstore/volume.go:45-59 | So are a volume's base, controller and replicas keys |
| `StoreKeys.ReplicaKeyIs` | kvstore/volume.go:61-63 | So is a replica's key |
| `StoreKeys.SameLengthPrefixFree` | manager/manager.go:38-40 | Names of equal length, such as manager-made replica names of one volume, are prefix-free |
| `StoreKeys.ControllerStable` | kvstore/volume.go:183-188 | Listing a controller key is exact in every store |
| `StoreKeys.ReplicasStable` | kvstore/volume.go:164-181 | Listing replicas is exact for prefix-free replica names, and yields them |
| `StoreKeys.ReplicaStable` | kvstore/volume.go:197-202 | Listing one replica's key is exact if and only if no other replica's name extends it |
| `StoreKeys.VolumeStable` | kvstore/volume.go:274-279 | Listing a volume's root never panics, and yields exactly the halves, base and instances, of every volume whose name starts with it |
| `StoreKeys.VolumesStable` | kvstore/volume.go:281-285 | Listing volumes is exact for prefix-free volume names |
| `StoreKeys.HostsStable` | kvstore/kvstore.go:77-81 | Listing hosts is exact for prefix-free host names |
| `StoreView.SetThenGet` | kvstore/volume.go:204-272 | What was set reads back, from any earlier contents, stale instances included; an empty replica map reads back as none |
| `StoreView.SetLeavesOthers` | kvstore/volume.go:204-233 | Setting a volume leaves every other volume as it was |
| `StoreView.DeleteThenGet` | kvstore/memory.go:50-63 | A deleted volume cannot be read; another volume reads as before if and only if its name does not start with the deleted one |
| `StoreView.DeletedInstancesResurface` | kvstore/memory.go:50-63 | Creating a volume anew after a delete brings back the old controller and replicas |
| `StoreView.MarkedExactly` | orch/docker/docker.go:242-248 | In the record that is written back exactly the replica of that name is marked, and nothing else changes |
| `StoreView.BadMarksAreLost` | orch/docker/docker.go:237-253 | Marking a replica bad leaves the stored contents unchanged |
| `KVStore.MemoryBackend.Keys` | kvstore/memory.go:65-105 | The loops compute the listing for some order of all the keys, or panic as it does |
| `KVStore.MemoryBackend.Delete` | kvstore/memory.go:50-63 | Exactly the listed keys are removed |
| `KVStore.KVStore.SetHost` | kvstore/kvstore.go:50-56 | Only that host's slot changes |
| `KVStore.KVStore.SetSettings` | kvstore/kvstore.go:100-105 | Only the settings slot changes |
| `KVStore.KVStore.SetVolumeBase` | kvstore/volume.go:65-71 | Only the base slot changes, stripped of instances |
| `KVStore.KVStore.SetVolumeReplicas` | kvstore/volume.go:80-87 | Every replica of the map is stored in its slot, nothing else changes |
| `KVStore.KVStore.DeleteVolumeController` | kvstore/volume.go:183-188 | Exactly the controller slot is removed |
| `KVStore.KVStore.DeleteVolumeReplicas` | kvstore/volume.go:190-195 | For prefix-free names exactly the volume's replica slots are removed |
| `KVStore.KVStore.DeleteVolumeReplica` | kvstore/volume.go:197-202 | If no other replica's name extends it, exactly that slot is removed |
| `KVStore.StepwiseSet` | kvstore/volume.go:211-231 | Base, controller and replica steps together are the one-step specification of setting a volume |
| `KVStore.KVStore.SetVolume` | kvstore/volume.go:204-233 | On the flat map of the memory backend, from any earlier contents with prefix-free replica names: all slots of the volume are replaced, it reads back as set, and every other volume reads as before |
| `KVStore.KVStore.GetVolumeReplicasByKey` | kvstore/volume.go:164-181 | Reading the replicas through the key listing yields exactly the stored ones |
| `KVStore.KVStore.GetVolumeByKey` | kvstore/volume.go:243-272 | Reading through the root key yields the volume that its slots add up to |
| `KVStore.KVStore.GetVolume` | kvstore/volume.go:235-241 | Likewise by name; found if and only if its base is stored |
| `KVStore.KVStore.DeleteVolume` | kvstore/volume.go:274-279 | Removes the base of every volume whose name starts with the given one, and no instance: the volume cannot be read any more, and another reads as before if and only if its name does not start with this one |
| `KVStore.KVStore.ListVolumes` | kvstore/volume.go:281-297 | For prefix-free names: every stored volume once, each as GetVolume reads it, and nothing else |
| `KVStore.KVStore.ListHosts` | kvstore/kvstore.go:77-94 | For prefix-free names: exactly the stored hosts by their IDs |
| `TaskQueue.Queue.RunQueue` | controller/queue.go:20-48 | The event loop produces exactly the replies and the final state of the request history, closing included: every taker and every lister has the answer that the requests before determine |
| `TaskQueue.QueueHistory` | controller/queue.go:20-48 | For every request sequence: the k-th taker was given the k-th put, the rest of the puts is queued in order, the rest of the takers is waiting in order |
| `TaskQueue.NeverBothWaiting` | controller/queue.go:30-42 | Tasks and takers never wait at the same time, and no task or taker is lost |
| `TaskQueue.PutsNumbered` | controller/queue.go:26-28 | The loop gives the k-th put number k: the k-th delivery carries k and the queue goes on without a gap |
| `TaskQueue.EveryTakerAnswered` | controller/queue.go:45-47 | After close every taker has exactly one answer: the k-th put if there was one, otherwise nil |
| `TaskQueue.ListingHistory` | controller/queue.go:24-25 | For every request sequence: one listing per list request, in order, sent to its lister and holding exactly the tasks put and not yet taken at that point |
| `BgTasks.ViewIncreasing` | api/volume.go:87 | In every run, latest tasks read at one moment followed by the queue read at any later moment are strictly increasing in number, without duplicates |
| `BgTasks.InstantViewComplete` | controller/bgtasks.go:13-27 | Read at one moment, the view is exactly the submitted tasks from the last finished one on, except one the worker has taken and not yet announced |
| `BgTasks.TakenGrows` | controller/bgtasks.go:33-41 | The number of tasks the worker has taken never decreases |
| `BgTasks.InvHolds` | controller/bgtasks.go:43-72 | Throughout every run the worker has taken a first part of the submitted tasks, in order: it holds or runs the last of these, the one before is the last finished, and the rest is queued |
| `BgTasks.OneTask` | controller/bgtasks.go:33-72 | The worker takes the first queued task, announces it as running, then as finished, and is ready for the next |
| `BgTasks.WaitsForTask` | controller/bgtasks.go:33-41 | With nothing queued it waits, and is given the next task submitted |
| `BgTasks.ClosedView` | controller/queue.go:56-63 | On a closed queue the view is only what was published before |
| `BgTasks.ClosedWorkerStops` | controller/bgtasks.go:33-41 | On a closed queue the worker's next take ends it for good |
| `Registry.Holder.HoldControllers` | controller/controller.go:43-64 | The loop computes registry, closed queues and replies of the request history |
| `Registry.RegistryHistory` | controller/controller.go:43-64 | After any request prefix: which controller is held for each name, what was replied, and which queues are closed |
| `Registry.ReplyMatchesRequest` | controller/controller.go:55-62 | Every reply has the requested name and URL |
| `Registry.SharedIffUninterrupted` | controller/controller.go:55-62 | Two requests for a name share a controller if and only if no cleanup and no other URL came between and their URLs agree |
| `Registry.ClosedIffCleanedUp` | controller/controller.go:47-53 | A controller's queue is closed if and only if what ended its time in the registry was a cleanup |
| `Registry.URLInjective` | controller/controller.go:56 | Different addresses have different URLs |
| `FanOut.FanOutIsSafe` | manager/manager.go:472-513 | For any program that announces goroutines before spawning them and any schedule: the WaitGroup counter equals live plus announced goroutines, no send on a closed channel, no negative counter, no Add racing with Wait, no deadlock, and on closing every report has been collected exactly once |
| `FanOut.CheckCollectsEverything` | manager/manager.go:474-513 | The health check's nested fan-out, any number of ERR replicas: exactly one remove and one mark result each, and no other |
| `FanOut.CleanupCollectsEverything` | manager/manager.go:544-590 | The cleanup's fan-out: one stop result per running bad replica, one remove result per expired one, one complaint per unreadable timestamp |
| `FanOut.StopCollectsFailures` | manager/manager.go:325-347 | Stopping or starting replicas: one error per failed call, so the list is empty if and only if all succeeded |
| `FanOut.StepProgresses` | manager/manager.go:472-513 | Every step of any goroutine brings the end exactly one step closer |
| `FanOut.NoPanic` | manager/manager.go:472-513 | In every reachable state no enabled step panics or misuses the WaitGroup |
| `Scheduler.Process` | scheduler/scheduler.go:93-105 | It answers with an instance if and only if this is the addressed host and its processing yields that instance with an ID and a type |
| `Scheduler.ScheduleProcess` | scheduler/scheduler.go:75-91 | Over what is answered: this host accepts if and only if its own processing yields an identified instance, another one if and only if it is found and answers, each with that instance; it crashes if and only if another host is gone |
| `Scheduler.PriorityList` | scheduler/scheduler.go:42-61 | Every host once, all free ones before all occupied ones; an unsupported binding is refused if and only if there is a host |
| `Scheduler.Schedule` | scheduler/scheduler.go:27-91 | A search tries the hosts in some priority order until one does not refuse; without a search the outcome is exact. It is placed only with the instance that a host it may go to answers, and fails if and only if a field is missing, the hosts cannot be listed, the binding is not supported, or every host it may go to refuses |
| `Scheduler.OrderOutcome` | scheduler/scheduler.go:63-72 | In every order: a search fails if and only if every host refuses; the host that decides it is occupied only if every free host refuses; the answer is its own |
| `Scheduler.DecidesIff` | scheduler/scheduler.go:61-72 | A host that does not refuse decides the search in some order if and only if it is free or every free host refuses |
| `Scheduler.CrashIff` | scheduler/scheduler.go:80-84 | Some order crashes if and only if a listed host is gone that is free or all of whose free rivals refuse |
| `Scheduler.PrepareCreateReplicaPolicy` | orch/docker/instance.go:263-274 | The policy names exactly the hosts of replicas without a bad mark |
| `Scheduler.SpreadCounts` | scheduler/scheduler.go:45-71 | One placement raises the number of occupied accepting hosts by one until all are occupied |
| `Scheduler.VolumeRecord.CreateReplica` | orch/docker/instance.go:228-261 | Fails if and only if the volume cannot be read, its size is 0 or every listed host refuses; crashes only if some order does; otherwise one replica, as an accepting host answered it, on a host that spreads; without a volume it succeeds with nothing |
| `Scheduler.VolumeRecord.DoCreate` | manager/manager.go:64-69 | Exactly the replicas before the first that fails or crashes are created and stay; under a fixed set of accepting hosts they take new ones as long as there are any |
| `Scheduler.NewVolumeSpread` | manager/manager.go:64-69 | For a new volume, k creations with H accepting hosts occupy exactly min(k, H) distinct hosts |
| `Instances.Cluster.DoCreateReplica` | orch/docker/instance.go:296-334 | Exactly when it succeeds, and the containers afterwards: a new one, or none unless docker refuses to remove it again |
| `Instances.Cluster.DoCreateController` | orch/docker/instance.go:163-222 | Exactly when it succeeds, and the containers afterwards: once docker has made the container it stays, launched with the given URLs, whatever fails |
| `Instances.Cluster.RefreshInstanceInfo` | orch/docker/instance.go:336-362 | Reports the container's state if and only if it can be inspected on this host and does not run without an address |
| `Instances.Cluster.UpdateInstanceMetadata` | orch/docker/instance.go:474-517 | Succeeds if and only if the instance is complete, the store answers and the slot is not bound to another container or host; then only that slot changes, and a replica keeps mode and mark |
| `Instances.Cluster.RemoveInstanceMetadata` | orch/docker/instance.go:519-566 | Succeeds if and only if the slot is bound to the same container and host and the store answers; then only that slot is cleared |
| `Instances.Cluster.ProcessSchedule` | orch/docker/instance.go:40-97 | What docker and the store answer decides exactly whether a request succeeds, what it reports, and every container and record afterwards |
| `Instances.ContainerEffects` | orch/docker/instance.go:400-472 | What a request does to each container, whether or not it succeeds: a granted stop leaves it not running, a granted start running at the given address, a delete removes it if and only if docker grants it on its host and it does not run; nothing else changes |
| `Instances.ContainerCreated` | orch/docker/instance.go:163-334 | A container that is new was made by a create, under its name and on its host; only a started controller runs |
| `Instances.ReportAgrees` | orch/docker/instance.go:336-362 | What a successful request reports is what is recorded, and agrees with the container |
| `Instances.MalformedRefused` | orch/docker/instance.go:47-80 | A request for another orchestrator, with unreadable data, without ID or for an unknown action changes nothing |
| `Instances.OnlyCompleteRecorded` | orch/docker/instance.go:474-481 | Over any run of requests, only instances with all identifying fields are recorded |
| `Instances.StepConsistent` | orch/docker/instance.go:40-97 | Whatever is answered, every record stays in the slot of its type and names and agrees with its container |
| `Instances.StepOrphans` | orch/docker/instance.go:82-95 | Where every container was recorded, a request leaves one unrecorded if and only if its answers say so: any failed controller whose container was made, or a failed replica that docker does not remove |
| `Instances.NoOrphansIff` | orch/docker/instance.go:40-97 | Over any run, every container is recorded at all times if and only if no request of the run leaves one behind |
| `Instances.FailedControllerLeaves` | orch/docker/instance.go:191-221 | Every failed creation of a controller whose container was made leaves it behind under its name, even if docker would remove a stopped one |
| `Instances.FailedStartHappens` | orch/docker/instance.go:191-210 | A concrete request and answers, on an empty cluster, for which that happens |
| `Instances.LeftoverBlocks` | orch/docker/instance.go:174-189 | After any run in which nobody deletes a container, every create of its name on its host fails, whatever docker and the store answer |
| `Instances.RequestIsAttempt` | orch/docker/instance.go:82-97 | The record effect of a request is nothing or one store or delete attempt, on the named volume |
| `Instances.UnboundIffMatchingDelete` | orch/docker/instance.go:474-566 | In one step a bound slot is unbound if and only if the step is a delete of the same container and host; otherwise it stays bound to them |
| `Instances.IdentityOverRuns` | orch/docker/instance.go:474-566 | Over any run of requests without a matching delete, whatever they are answered, a slot keeps container and host, and a replica its mode and bad mark |
| `Instances.RebindingNeedsDelete` | orch/docker/instance.go:519-566 | Whenever a binding or mark did change, the run holds a matching delete |
| `Instances.OthersUntouched` | orch/docker/instance.go:474-566 | A run changes only records of the volumes its requests name |
| `BadMarks.NoMarkIsEverStored` | orch/docker/docker.go:206-253 | In every store that the manager's writes can reach from an unmarked one no replica is marked bad |
| `BadMarks.MarkingChangesNothing` | orch/docker/docker.go:237-253 | Marking a replica bad changes nothing in the store |
| `Lifecycle.Manager.StopInstance` | orch/docker/instance.go:410-428 | It succeeds if and only if the instance is complete, its host is reached, the request works there and the answer comes back; then the record says stopped and the container does not run; an incomplete instance is not asked about |
| `Lifecycle.Manager.StartInstance` | orch/docker/instance.go:381-398 | Likewise; then the container runs at the recorded address |
| `Lifecycle.Manager.RemoveInstance` | orch/docker/instance.go:442-459 | Likewise; then record and container are gone |
| `Lifecycle.Manager.StopAndSelect` | manager/manager.go:278-306 | One stop call for each running replica and no other; selects the replicas without a bad mark; crashes if and only if some bad mark can be read |
| `Calls.LaunchMeans` | manager/manager.go:278-351 | Where a controller is asked for: it is the last call, none before it failed, and each replica recorded as running was stopped, each one without a bad mark started |
| `Lifecycle.Manager.StartAll` | manager/manager.go:325-347 | One start call for each selected replica and no other; it fails if and only if one of them does; otherwise all are recorded and running at an address; no record loses identity, mode or mark; in a sound volume it succeeds when nothing outside fails |
| `Lifecycle.Manager.StopAll` | manager/manager.go:380-400 | One stop call for each replica and no other; it fails if and only if one of them does; otherwise all are recorded as stopped and no container of them runs; in a sound volume it succeeds when nothing outside fails |
| `Lifecycle.Manager.PrepareCreateController` | orch/docker/instance.go:127-161 | The URLs are those of the given replicas' recorded addresses, each once; when it fails; nothing, without an error, for a volume that is gone |
| `Lifecycle.Manager.CreateController` | orch/docker/instance.go:99-125 | A controller whose container runs on this host, launched with exactly those URLs; crashes if and only if the volume is gone; replicas and other volumes unchanged |
| `Lifecycle.Manager.StopInstances` | manager/manager.go:375-400 | A running controller is stopped before any replica, and if it cannot be nothing else is called |
| `Lifecycle.Manager.DoDetach` | manager/manager.go:371-408 | No replica is stopped before a running controller was, and the controller is not removed unless every replica was stopped and nothing failed; it succeeds if and only if every call does, and then leaves replicas and their containers stopped, no controller, no container of it and no monitor; in a sound volume it succeeds when nothing outside fails; replica records survive any failure; other volumes unchanged |
| `Lifecycle.Manager.Detach` | manager/manager.go:359-369 | The same by name; nothing happens when the volume is gone |
| `Lifecycle.Manager.StartAndLaunch` | manager/manager.go:273-357 | A controller is asked for at most once, as the last call, and only if no call failed, every running replica was stopped and every selected one started; whether or not it comes up, the selected replicas are then running and their addresses given to it; the attach succeeds if and only if every call does |
| `Lifecycle.Manager.DoAttach` | manager/manager.go:263-357 | The whole attach: after a success a controller is recorded as running on this host; no call is made if and only if that was so before; a volume attached elsewhere is fully detached first; a monitor is started if and only if it succeeds; when it crashes; what every failure leaves alone |
| `Lifecycle.Manager.Attach` | manager/manager.go:255-261 | The same by name; for a detached volume it crashes if and only if a bad mark can be read, and always for a missing one; from any reachable store an existing volume is attached with all its replicas and never crashes; a sound volume whose controller name is free here is attached when nothing outside fails |
| `Lifecycle.FailedControllerBlocks` | orch/docker/instance.go:191-221 | A failed creation of a volume's controller leaves its name taken by a container that nothing records |
| `Lifecycle.Manager.Operate` | manager/manager.go:139-408 | Over any sequence of attaches, detaches and deletes of any volumes such a container stays, and no attach of that volume on that host succeeds |
| `Lifecycle.Manager.Delete` | manager/manager.go:139-160 | Replicas are removed only after a successful detach, and the metadata only after every replica was; it succeeds if and only if every call does, and always for a sound volume when nothing outside fails; then it leaves no record of the volume, no container that one was bound to and no monitor; other volumes unchanged |
| `VolumeFrames.ReadIsSnapshot` | manager/manager.go:190-199 | A volume as read lists exactly the recorded instances, with their identities |
| `VolumeFrames.FineToggle` | orch/docker/instance.go:400-436 | A start or stop of an instance with a complete record and a container on its host succeeds when docker and the store do their part |
| `Rebuild.CounterExact` | manager/manager.go:437-443 | In every run the adding counter equals the counted adds and is never negative |
| `Rebuild.CheckCreatesIff` | manager/manager.go:514-525 | An undisturbed check drops the ERR replicas, keeps the others, and creates one if and only if there are some good ones but fewer than wanted, none is write-only and the counter is 0 |
| `Rebuild.WholeAdd` | manager/manager.go:421-433 | A whole add ends with one more good replica and the counter as before |
| `Rebuild.JoiningBlocks` | manager/manager.go:519-521 | While a replica joins, no check creates another |
| `Rebuild.ChecksGoOn` | manager/manager.go:464-531 | However a check ends the next one can begin, and drops what has broken |
| `Rebuild.OneAddIff` | manager/manager.go:410-435 | At most one add is ever in flight if and only if no check creates a replica while an earlier goroutine has not raised the counter |
| `Rebuild.NeverExceedsIff` | manager/manager.go:519-525 | In every run, engine replicas and those being added never exceed the wanted number if and only if no check creates a replica while there are enough |
| `Rebuild.RebuildBound` | manager/manager.go:514-525 | A schedule in which no check overtakes an uncounted add or decides on a stale listing meets that condition, whatever breaks, is removed, finishes or is abandoned |
| `Rebuild.OvertakingExceeds` | manager/manager.go:421-423 | Two checks before the first goroutine raises the counter: two adds in flight and one replica too many |
| `Rebuild.StaleListingExceeds` | manager/manager.go:465-521 | A whole add between a check's listing and its look at the counter: one replica too many although every add was counted in time |
| `Rebuild.DuringReachable` | manager/manager.go:465-521 | The state that trace starts from is reached by an ordinary run |
| `Monitor.CheckController` | manager/manager.go:464-531 | Which failures of a health check return an error with a cause and which a plain one, through the errors that the code builds, and when the check closes its monitor's channel |
| `Monitor.Watcher.Watch` | manager/monitor.go:51-79 | The loop ends exactly at the first check that is grave, is the fourth plain failure in a row, or detaches the volume itself; it then gives up and detaches once, ends, or crashes, as the answers say; otherwise it checks at every tick but the first |
| `Monitor.DetachingCheckEnds` | manager/monitor.go:24-33 | What a check that detaches the volume itself does to its monitor, by the result of the detach: it ends, or it crashes on closing a closed channel |
| `Monitor.CrashHappens` | manager/monitor.go:71-73 | Answers to a first check for which the monitor crashes |
| `Monitor.FourPassingIffStreak` | manager/monitor.go:63-69 | The attempt counter exceeds its limit exactly at the fourth plain failure in a row |

## Left out

- `api/`, HTTP forwarding and resource conversion: only the concatenation of the two task lists is modelled.
- `kvstore/etcd.go`: the lifecycle uses an ideal store with recursive delete; the memory backend is modelled as it is.
- `backups/`, `controller/snapshots.go`, `controller/backups.go` and purge coalescing: a failing remote listing stands for them.
- Creating a volume from a backup and cleaning up after a failed create: they only chain the modelled operations.
- The volume state summary, endpoint, base image, stale timeout and recurring-job validation: easy members that nothing here depends on.
- Cron parsing, tickers and wall-clock time: ticks and runs arrive in any order.
- Locks: a critical section is one step of a state machine or one method call.
- `RecurringJobs.JobCache`: the three copies of the cleanup loop are one class; only the snapshot job purges.
- `RecurringJobs.Remote.Create`: a failed creation leaves nothing behind.
- `RecurringJobs.SnapshotTask.RunHistory`: snapshot names are fresh, since they end in a random ID.
- `RecurringJobs.JobCache.RunHistory`: likewise.
- `RecurringJobs.BackupTask`: the step from the queue to the cleanup hook is not modelled. The job enqueues a task value where the worker matches a pointer, so the hook would not run.
- `RecurringJobs.JobCache.Cleanup`: a negative Retain is covered by the state machine, not by the class.
- `KVStore.KVStore`: names are path segments without slashes, not empty and not dots, and the store's prefix is absolute and not the root.
- `KVStore.KVStore.SetVolume`: instances carry the volume's name and map keys are replica names, as the manager makes them.
- `KVStore.KVStore.SetVolumeReplicas`: likewise.
- `KVStore.KVStore.GetVolumeByKey`: a key that holds another kind of record reads as nothing, where the original would decode it field by field.
- `TaskQueue.PutsNumbered`: numbers are unbounded, without 64-bit wrap-around.
- `BgTasks.ViewIncreasing`: every submitted task is a new one; putting the same task twice would renumber it.
- `FanOut.FanOutIsSafe`: covers a main goroutine that collects only after it has spawned everything, which is what the manager's fan-outs do.
- `Scheduler.VolumeRecord.DoCreate`: replica names are fresh, since they are random; a host that accepts a replica reports itself as its host.
- `Scheduler.VolumeRecord.CreateReplica`: likewise.
- `Instances.Cluster`: a started container stays running until it is stopped, docker does not remove a running container (the code does not force it to), and IDs are never reused. Types other than controller and replica are not modelled.
- `Lifecycle.Manager`: operations on one volume do not overlap, and parallel stops and starts appear as a loop in arbitrary order, whose error collection `FanOut` covers.
- `Lifecycle.Manager.DoAttach`: choosing the most recent bad replica when no good one is left is not modelled, since the code crashes before it can choose one.
- `Monitor.CheckController`: a check of a volume whose metadata is gone, where marking a replica and creating one crash, is not modelled.
- `Monitor.Watcher.Watch`: a channel closed by somebody else, which ends the loop, is not an input.
