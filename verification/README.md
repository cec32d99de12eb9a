# A model of firecracker-containerd

firecracker-containerd runs containers inside Firecracker virtual machines. A shim on the host owns one VM. An agent
inside the VM runs the container processes. Between them lie registries, allocators and hand-shakes. This project
states what those promise and proves it, in Dafny 4.11. `dafny verify dfyconfig.toml` checks all files.

Calls to the outside (the agent, the VMM, mounts, dialling, closing, file creation) are parameters that say whether
the call succeeds; a call that fails changes nothing outside. Timeouts are failures that may come at any moment.
Code that updates state in place is written as classes and methods, each proved against a function of the old state.
Code that runs concurrently is also a state machine: a step is one lock-protected section, one unlocked assignment or
one event of the outside, and the theorems hold for every run, that is, every interleaving of any number of clients.

| file | what it models |
|---|---|
| `Outcomes.dfy`, `Text.dfy`, `Rfc4648.dfy` | results; decimal numerals, splitting and joining; base32 and base64url (sections 5 and 6 of RFC 4648) |
| `ProcRegistry.dfy`, `TaskManager.dfy`, `TaskRuns.dfy`, `ProxyRuns.dfy`, `FlushRuns.dfy`, `AnswerRuns.dfy` | the task table, the task manager, every interleaving of its clients, when their proxies are closed, what a delete has flushed, and what every call is answered |
| `IoPair.dfy` | the stdio hand-shake of one stream, and of the streams of a process |
| `Shim.dfy`, `VsockPorts.dfy`, `Lifecycle.dfy` | the shim: FIFO table and lent drives, vsock ports, the life of the VM |
| `StubFormat.dfy`, `DriveIds.dfy`, `Discovery.dfy`, `StubDrives.dfy` | stub drives: their bytes, their IDs, finding them in the guest, lending them to containers |
| `EnvMerge.dfy`, `ExecCleanup.dfy`, `Paths.dfy`, `Volumes.dfy`, `CpuSet.dfy` | environment merge, cleanup stacks, system directories, volume names, the cpuset printer |
| `SnapshotterCache.dfy`, `MetricsPorts.dfy` | the remote snapshotter cache and the metrics port allocator |

## What does not hold

Some promises fail. Each has a concrete run or input, and the exact condition under which it holds.

- A stub drive whose ID has 0 bytes, or 128 to 255 bytes, is not read back, because the length is printed as a
  character and takes two bytes from 128 on. The one exception is the ID of 195 bytes that are all 0x83.
  `StubFormat.StubRoundTrip` is the exact condition. Every ID the runtime makes has 13 to 50 bytes.
- `DeleteProcess` waits for the channel stored in the process record. An `AttachIO` that comes before the creator's own
  write of that channel is overtaken: its streams are not waited for (`TaskRuns.AttachOvertaken`). The comment that all
  streams are flushed is kept for an attached proxy, in every continuation, if and only if at the `AttachIO` the create
  had written its own channel or could only fail, or the proxy has no streams (`FlushRuns.AttachIsFlushedIff`). It is
  kept whenever `AttachIO` is only called for processes whose create has returned (`TaskRuns.PatientDeleteDrainsLast`).
  `TaskRuns.DeletedIsDrained` says which proxy a delete waited for.
- A `DeleteProcess` that comes before the creator's write of the channel can read none, and then waits forever
  (`AnswerRuns.DeleteHangs`). A call can come to its answer if and only if it is not such a delete
  (`AnswerRuns.CanReturnIff`).
- A proxy that is marked closed need not be drained. `monitorIO` closes the proxy that the record has when its own
  channel ends, which may be a newer one (`TaskRuns.MonitorClosesNewerProxy`); and the failed initialisation of one
  stream closes an attached proxy whose other streams are being copied (`ProxyRuns.InitErrorClosesCopying`). Apart from
  such failures, an attached proxy is closed too early in some continuation if and only if it has streams and, when it
  was attached, a monitor of the record had not fired or the create could still succeed (`ProxyRuns.AttachIsSafeIff`).
  For the proxy a create brought, closed does mean drained (`ProxyRuns.CreatedClosedIsDrained`). Asking whether the last
  proxy is open, as the shim's `State` does, is not enough, since a proxy that failed to initialise is reported as not
  open before its monitor fires.
- The rollback of a failed create deletes by key. It can take out the record of a later create
  (`TaskRuns.RollbackTakesAnother`); it takes out its own if and only if nobody did before.
- A termination that cannot be graceful does not return its error but ends the shim's process, if and only if
  `newJailer` has failed before, which leaves no jailer to stop (`Lifecycle.ForcedPanicsIff`).
- Deleting the initial process of a task while it has execs drops their FIFOs too; deleting those execs then fails
  (`Shim.OrphanedExec`; exactly then: `Shim.EarlyDeleteOrphans`, `Shim.DeleteAgrees`).
- A create that fails after its drive was reserved keeps the drive (`Shim.LeakedDrive`; exactly then:
  `Shim.CreateLeaksIff`), and the task can then not be created again with a block device (`Shim.LeakedDriveStays`).
- The set of block-device tasks never shrinks, so a task ID that is used again with a root filesystem inside the VM
  can be deleted only with an error (`Shim.SecondLifeIsDirty`; exactly then: `Shim.StaleBlockDeviceTask`).
- Unsetting an environment variable fails when the image lists it twice (`EnvMerge.ShadowedNotUnset`; exactly then:
  `EnvMerge.FoldedIffUnshadowed`).
- Overlapping cache calls can lose a snapshotter (`SnapshotterRuns.OverlappingMissesLose`) or close one twice
  (`SnapshotterRuns.OverlappingEvictionsCloseTwice`); a run does neither if and only if none of its steps races
  (`SnapshotterRuns.AlwaysConservedIffNoRaces`).
- A volume that a user adds as "anon_1" can share its name with a generated one (`Volumes.SharedName`; exactly when
  volumes share a name or a directory: `Volumes.ShareNameIff`, `Volumes.ShareDirectoryIff`). A volume of one provider can
  replace that of another (`Volumes.NamesClash`; where each mount leads: `Volumes.ProviderMountsResolve`).
- A negative number or a reversed range given to the cpuset builder makes the printed list unreadable; exactly those do
  (`CpuSet.ListingRoundTrip`).

## Model

| member | source | states |
|---|---|---|
| `ProcRegistry.NewProcAdds` | internal/vm/task.go:109-139 | newProc succeeds exactly on a live manager for an unregistered pair whose task exists (or for an initial process); it adds that one entry, changes no other and leaves no task without processes |
| `ProcRegistry.DeleteProcRemoves` | internal/vm/task.go:141-161 | deleteProc succeeds exactly on a registered pair, returns the record stored there, removes only it and leaves no task without processes |
| `ProcRegistry.RollbackRestores` | internal/vm/task.go:190-195 | newProc followed by the rollback's deleteProc gives back the very same table |
| `ProcRegistry.TidyEmpty` | internal/vm/task.go:163-173 | having no task and having no process are the same, so len(tasks) == 0 tests what it should |
| `TaskManagers.TaskManager.NewProc` | internal/vm/task.go:109-139 | the method on the mutable tables: exact success condition, a fresh record under its own IDs, the table of the specification; an error changes nothing |
| `TaskManagers.TaskManager.DeleteProc` | internal/vm/task.go:141-161 | the method on the mutable tables: exact success condition, the table of the specification, the record that was stored |
| `TaskManagers.TaskManager.ShutdownIfEmpty` | internal/vm/task.go:163-173 | answers true exactly when no process is registered, and then the manager is shut down |
| `TaskManagers.TaskManager.FindProc` | internal/vm/task.go:328-343 | finds exactly the registered records that have a proxy |
| `TaskManagers.TaskManager.AttachIO` | internal/vm/task.go:345-369 | sets both proxy and channel, only of a registered record that has a proxy; all other records stay unchanged |
| `TaskRuns.RegistryStaysConsistent` | internal/vm/task.go:109-173 | in every interleaving of creates, execs, deletes, attaches, rollbacks and shutdowns the table holds exactly the records not yet removed, each under its own IDs, and no empty exec map |
| `TaskRuns.ShutdownIsExact` | internal/vm/task.go:163-173 | in every reachable state ShutdownIfEmpty answers true if and only if no process is registered |
| `TaskRuns.ShutdownIsForever` | internal/vm/task.go:109-116 | after a successful shutdown, in every continuation, the table stays empty and every newProc fails |
| `TaskRuns.CreatedIsCopying` | internal/vm/task.go:175-263 | a create or exec that returned successfully has begun copying on each of its streams |
| `AnswerRuns.FailedCreateLeavesNothing` | internal/vm/task.go:175-263 | in every interleaving a create or exec that has returned an error has left no record registered, every registered record belongs to a create that has succeeded or is still at work on it, and no call makes two records |
| `AnswerRuns.AnswersAreExact` | internal/vm/task.go:109-369 | in every interleaving each call works with the IDs, the record and the proxy it was made for, and it fails if and only if newProc refused it, the task service or the stdio reported an error, there was nothing to delete or attach to, or a process was still registered |
| `AnswerRuns.ConsentComesFirst` | internal/vm/task.go:265-278 | in every interleaving nothing is taken out of the table, and no create succeeds, before the task service has consented |
| `AnswerRuns.CanReturnIff` | internal/vm/task.go:175-288 | from every reachable state a call can come to its answer, if and only if it is not a delete that has read a channel not yet written |
| `AnswerRuns.HangsForever` | internal/vm/task.go:280-288 | such a delete stays where it is in every continuation |
| `AnswerRuns.DeleteHangs` | internal/vm/task.go:280-288 | a run that leads there |
| `TaskRuns.DeletedIsDrained` | internal/vm/task.go:265-288 | a successful DeleteProcess of a process whose create had returned has drained the proxy of the record's channel, which is the one it waited for; this is the proxy the process was given last in the run if and only if the creator's write of its own channel did not come after the last AttachIO |
| `FlushRuns.AttachIsFlushedIff` | internal/vm/task.go:265-369 | in every reachable state: in all continuations of an AttachIO that leave its proxy the last one, every successful DeleteProcess of the process after its create had returned has drained it, if and only if the proxy has no streams, or the create has written its own channel or can only fail |
| `TaskRuns.PatientDeleteDrainsLast` | internal/vm/task.go:265-288 | in every run whose AttachIO calls on a process come after its create has returned, such a DeleteProcess has drained the proxy that was attached last |
| `TaskRuns.AttachOvertaken` | internal/vm/task.go:345-369 | a run in which a process is deleted successfully although the proxy attached last is not even initialised |
| `TaskRuns.MonitorClosesNewerProxy` | internal/vm/task.go:371-375 | a run in which monitorIO closes a newer proxy whose streams are still to be opened |
| `ProxyRuns.ClosedIsDrained` | internal/vm/task.go:371-375 | in every run a proxy that is marked closed has been drained, or was attached and has reported a failed initialisation, provided its AttachIO, if there was one, waited for the create and for all monitors of the record |
| `ProxyRuns.CreatedClosedIsDrained` | internal/vm/task.go:371-375 | in every run the proxy that a create brought has been drained once it is marked closed |
| `ProxyRuns.NullIsNeverClosed` | internal/vm/agent.go:41-67 | in every run a null proxy is never marked closed |
| `ProxyRuns.AttachIsSafeIff` | internal/vm/task.go:345-375 | in every reachable state: no continuation of an AttachIO closes its proxy too early, if and only if the proxy has no streams, or every monitor of the record has fired and the create has returned or can only fail |
| `ProxyRuns.OrderlyIsSafe` | internal/vm/task.go:345-375 | in particular that is so once the create has returned and every monitor of the record has fired |
| `ProxyRuns.InitErrorClosesCopying` | internal/vm/task.go:358-365 | a run in which a proxy is closed by a failed initialisation while its other stream is being copied, so that it is not open although its monitor has not fired and the next AttachIO is not safe |
| `TaskRuns.RollbackIsOwnIffNotRemoved` | internal/vm/task.go:190-195 | in every reachable state a rollback takes out its own record if nobody removed it before; otherwise the record of another create if the key was used again, and nothing if it was not |
| `TaskRuns.RollbackTakesAnother` | internal/vm/task.go:236-241 | a run in which a rollback takes out the record of another, successful create |
| `IoPair.EveryRunKeepsProtocol` | internal/vm/ioproxy.go:76-161 | in every interleaving at most two sends on initDone, one close of it, before any event of copyDone; copying begins exactly if both connectors succeeded; at the end every opened stream is closed; no run is longer than twelve steps |
| `IoPair.ReportsAreExact` | internal/vm/ioproxy.go:76-161 | in every interleaving initDone has one error per connector that failed, copyDone an error only if the copying failed, and streams forced closed are closed; at the end both channels are closed, copyDone had its error if and only if the copying failed, data was copied if and only if both connectors succeeded, and exactly the opened streams are closed |
| `IoPair.NoDeadlock` | internal/vm/ioproxy.go:76-249 | no stream of a proxy is ever stuck, not even on the send to the unbuffered copyDone: short of its end, with both channels read, there is always a step that does not need the process to exit |
| `IoPair.StreamRankStep` | internal/vm/ioproxy.go:76-249 | every step brings its stream nearer its end and leaves the other streams alone; a stream has at most fourteen steps |
| `IoPair.SessionInvStep` | internal/vm/ioproxy.go:202-249 | the invariant of the goroutines of a proxy is kept by every step, and what a channel has reported, or a connector failed, stays so |
| `IoPair.SessionReports` | internal/vm/ioproxy.go:202-249 | nil on initDone means every stream was opened on both sides and is being copied, an error means some connector failed, and an event of copyDone means no stream is or will be copied |
| `Shim.AddFIFOsAdds` | runtime/service.go:1108-1123 | addFIFOs fails exactly on a pair that is there, and otherwise adds that pair with its configuration and keeps the others |
| `Shim.DeleteFIFOsDeletes` | runtime/service.go:1125-1139 | deleteFIFOs fails exactly on a missing pair; it removes the pair, and for an initial process all pairs of the task |
| `Shim.Service.AddFIFOs` | runtime/service.go:1108-1123 | the method on the mutable table of tables gives the table of the specification |
| `Shim.Service.DeleteFIFOs` | runtime/service.go:1125-1139 | the method on the mutable table of tables gives the table of the specification |
| `Shim.Service.CreateTask` | runtime/service.go:1141-1254 | the bookkeeping of Create, with every early return: reservation, block-device set, registration, rollback and FIFOs, on the mutable shim and its drive handler |
| `Shim.Service.Start` | runtime/service.go:1356-1370 | registration, rollback on failure and addFIFOs, as Create and Exec share them |
| `Shim.Service.DeleteTask` | runtime/service.go:1272-1323 | the bookkeeping of Delete, with every early return: registry, FIFOs, release, bundle |
| `Shim.RepliesAreExact` | runtime/service.go:1141-1370 | from the start of a shim, after any requests, what the next create, exec, delete or shutdown comes back with, which processes are registered then, which tasks have a drive, what was done to the drives, and the FIFOs of a new process |
| `Shim.FifoTableAgrees` | runtime/service.go:1108-1139 | over every sequence of requests the FIFO table holds exactly the registered processes that were not orphaned by an early delete, and the next request never fails to add its FIFOs |
| `Shim.FifosNeverClash` | runtime/service.go:1237-1251 | from the start of a shim, over every sequence of requests, every pair of the FIFO table is in the task manager, and addFIFOs never fails after CreateTask or ExecProcess succeeded |
| `Shim.SameKeysIfInitialLast` | runtime/service.go:1282-1296 | if initial processes are deleted last, both tables have the same keys throughout |
| `Shim.EarlyDeleteOrphans` | runtime/service.go:1282-1296 | deleting an initial process keeps the key sets equal if and only if it was the last process of its task |
| `Shim.DeleteAgrees` | runtime/service.go:1282-1296 | a delete of a registered process fails for want of FIFOs exactly when an early delete had orphaned it |
| `Shim.DrivesAreRemembered` | runtime/service.go:1186-1197 | over every sequence of requests every container that holds a drive is in the block-device set |
| `Shim.CreateLeaksIff` | runtime/service.go:1186-1242 | a create leaks a drive exactly if the task is new, its root filesystem is not inside the VM, a drive is free that the options do not contradict, exposing, patching and mounting succeed, and a later step fails |
| `Shim.LeakedDrive` | runtime/service.go:1186-1242 | such a create from the start of a shim: the drive is in use, the task unknown, and the next create of the task is refused |
| `Shim.OrphanedExec` | runtime/service.go:1282-1296 | create, exec, delete of the initial process, delete of the exec: the last one fails for want of FIFOs |
| `Shim.LeakedDriveStays` | runtime/service.go:1298-1305 | a leaked drive is not given back by any sequence of requests that does not revive the task, and after it a create of the task with a block device is refused |
| `Shim.StaleBlockDeviceTask` | runtime/service.go:1298-1305 | when all outside calls succeed, deleting an initial process whose FIFOs are there reports an error exactly for a task remembered as a block-device task that holds no drive |
| `Shim.SecondLifeIsDirty` | runtime/service.go:1186-1197 | create and delete with a block device, then create with a VM-local root filesystem: the second delete reports an error, for every new task ID in every state in which a drive can be reserved for it |
| `VsockPorts.PortCounter.NextVSockPort` | runtime/service.go:431-445 | the port of the counter in uint32 arithmetic, or the panic, and the counter moved on by one |
| `VsockPorts.PortsAreConsecutive` | runtime/service.go:431-445 | from any counter value the ports are consecutive, no sum wraps around, and they end exactly at the panic |
| `VsockPorts.AllPortsDistinct` | runtime/service.go:431-445 | n requests all succeed if and only if n is below 4294956296; the ports are 11000, 11001 and so on, strictly increasing |
| `VsockPorts.ClientsShareNoPort` | runtime/service.go:1444-1450 | however the requests of clients interleave, no port goes to two of them |
| `VsockPorts.TriplesThatFit` | runtime/service.go:421-428 | exactly 1431652098 triples of stdin, stdout and stderr ports fit before the panic |
| `Lifecycle.OnceEach` | runtime/service.go:458-628 | in every interleaving createVM and the cleanup run at most once; vmReady closes at most once and only when createVM has set the machine, started the VM, set the clients, mounted the drives and succeeded |
| `Lifecycle.OneCreateAnswered` | runtime/service.go:458-511 | of all CreateVM calls only one gets an answer other than AlreadyExists, and nobody is told AlreadyExists before createVM is over; success means vmReady is closed, failure that the shim is cancelled |
| `Lifecycle.ReadyIsWatched` | runtime/service.go:498-500 | in every interleaving, once vmReady is closed exactly one thread watches the VM or has seen it exit, and there is none before createVM has succeeded |
| `Lifecycle.AnswersHaveReasons` | runtime/service.go:458-511 | a termination returns an error, or is about to, if and only if it gave up the graceful path; a Shutdown is ignored if and only if it was decided so; a CreateVM fails if and only if createVM had failed |
| `Lifecycle.CreatedIff` | runtime/service.go:513-628 | createVM counts as failed if and only if one of its stages failed, and as successful if and only if it returned from the last |
| `Lifecycle.ThreadsDoAsAsked` | runtime/service.go:1601-1627 | in every interleaving each thread stays in the call it was started for, and a Shutdown terminates the VM once that was decided and only then |
| `Lifecycle.CanEnd` | runtime/service.go:1645-1793 | from every state of a live shim every call, and the monitor, can come to its end, or a forced termination without a jailer ends the process |
| `Lifecycle.TerminateReports` | runtime/service.go:1628-1691 | terminate returns nil only after the whole graceful path, on a VM that was created; it returns an error only when the cleanup has completed and the shim is being cancelled |
| `Lifecycle.ForcedPanicsIff` | runtime/service.go:1628-1642 | in every reachable state a termination that gives up the graceful path ends the process if and only if newJailer has failed before; otherwise it stops the jailer and goes on to the cleanup |
| `Lifecycle.DeadAfterFailure` | runtime/service.go:539-543 | the process ends that way only after a CreateVM that failed for want of a jailer |
| `Lifecycle.FailedStaysUnready` | runtime/service.go:480-500 | after a failed creation vmReady stays open in every continuation |
| `Lifecycle.InvStep` | runtime/service.go:1756-1793 | every step of a create, a termination, the cleanup or the monitor keeps the invariant of the two Once values, the ready channel and all callers |
| `StubFormat.DriveSizeIsLeast` | runtime/drive_handler.go:294-313 | the drive size is the least multiple of 512 that holds the content |
| `StubFormat.File.ReadLimited` | internal/common.go:78-83 | one read of a limited reader: how many bytes, which ones, when it is the end of file, and where the file then stands |
| `StubFormat.HasMagicIff` | internal/common.go:72-91 | which eight bytes a stub begins with, and that only files beginning with them have the magic bytes |
| `StubFormat.ParsedIdIs` | internal/common.go:95-118 | for any file, byte by byte: when there is an ID, how long it is, and what it consists of |
| `StubFormat.IsStubDrive` | internal/common.go:78-91 | true exactly if the file begins with the magic bytes |
| `StubFormat.ParseStubContent` | internal/common.go:95-118 | the three limited reads yield the ID the specification reads from the same bytes, or the same error |
| `StubFormat.ParseShort` | internal/common.go:95-129 | an ID of 1 to 127 bytes is read back from its padded image; the empty ID ends in EOF |
| `StubFormat.ParseLong` | internal/common.go:122-129 | for 128 to 255 bytes, which bytes the reader takes for the ID instead |
| `StubFormat.StubRoundTrip` | internal/common.go:95-129 | the image is whole sectors and begins with the magic bytes, and the ID is read back if and only if it has 1 to 127 bytes or is the one ID of 195 bytes 0x83 |
| `DriveIds.DriveIDEncodesName` | runtime/drive_handler.go:252-258 | the drive ID is the base32 of the stub's file name, whatever the directory |
| `DriveIds.StubFileNameInjective` | runtime/drive_handler.go:177-188 | container and drive-mount stubs never share a file name, and each number has its own |
| `DriveIds.DriveIDInjective` | runtime/drive_handler.go:252-258 | two stubs have the same drive ID only if they are the same stub |
| `DriveIds.DriveIDShape` | runtime/drive_handler.go:252-258 | a drive ID has 13 to 50 letters and digits |
| `DriveIds.AllDriveIDsUsable` | runtime/drive_handler.go:58-62 | for any numbers of container and drive-mount stubs all IDs are pairwise distinct, alphanumeric and shorter than 128 bytes |
| `Rfc4648.Base32Injective` | runtime/drive_handler.go:256-257 | unpadded base32 maps different bytes to different texts |
| `Rfc4648.Base64UrlInjective` | agent/service.go:86-86 | base64url maps different bytes to different texts |
| `Rfc4648.GroupsSpellBytes` | runtime/drive_handler.go:256-257 | the values of the symbols spell the same number as the bytes, shifted by the zero bits that fill up the last group |
| `Text.DecimalInjective` | runtime/drive_handler.go:58-58 | different numbers are printed differently |
| `Discovery.DriveHandler.DiscoverDrives` | agent/drive_handler.go:86-118 | the loop over the devices gives the map of the specification, or an error that leaves the old map |
| `Discovery.DiscoveryIsExact` | agent/drive_handler.go:86-118 | discovery succeeds exactly if no device stops it, and maps exactly the IDs found on stubs, each to the name and numbers of the last device that carries it |
| `Discovery.StubsAreFound` | agent/drive_handler.go:86-118 | for any devices that are no stubs or images made for distinct IDs of 1 to 127 bytes, discovery succeeds and its map is exactly ID to device |
| `Discovery.HostDrivesAreFound` | agent/drive_handler.go:86-118 | whatever numbers of stubs the host makes and in whatever order the guest sees them among other devices, each is found under its own ID, and nothing else is found |
| `StubDrives.SetReadWriteOptions` | runtime/drive_handler.go:221-240 | the loop refuses exactly options whose first flag contradicts the drive, keeps options with a flag and appends the right flag to the others |
| `StubDrives.OptionsForIdempotent` | runtime/drive_handler.go:221-240 | options that were set carry the drive's flag first and are neither refused nor changed when set again |
| `StubDrives.OptionsForIs` | runtime/drive_handler.go:221-240 | options are refused exactly if their first flag is that of the other mode, kept if they have a flag, and otherwise get "rw" or "ro" at the end |
| `StubDrives.CreateContainerStubs` | runtime/drive_handler.go:48-82 | succeeds exactly if every file can be made; then the pool and the machine's drive list have one drive per container, in order; otherwise the list has the drives made before the first failure |
| `StubDrives.PoolDriveIs` | runtime/drive_handler.go:48-82 | the name, the ID and the mode of each drive of the pool, and how the machine lists it |
| `StubDrives.ContainerDrivesDistinct` | runtime/drive_handler.go:48-82 | the drives of the pool have distinct IDs |
| `StubDrives.StubDriveHandler.Reserve` | runtime/drive_handler.go:97-140 | the new queue, map and VM state, and the error, for every outcome of the outside calls |
| `StubDrives.StubDriveHandler.MountDrive` | runtime/drive_handler.go:358-385 | what PatchAndMount leaves in the VM, for every outcome of exposing, patching and mounting |
| `StubDrives.StubDriveHandler.Release` | runtime/drive_handler.go:144-172 | the new queue, map and VM state, and the error, for every outcome of the outside calls |
| `StubDrives.ReservedAsAsked` | runtime/drive_handler.go:97-140 | after a successful reservation the drive that was first in the queue is lent to the container, backed by the host path of the request and mounted at its VM path with its filesystem type and its options plus the flag; no other drive is touched |
| `StubDrives.ReserveFailed` | runtime/drive_handler.go:358-385 | a failed reservation lends and mounts nothing, and leaves the drive patched if and only if the mount is what failed |
| `StubDrives.ReleasedIff` | runtime/drive_handler.go:144-172 | when a release succeeds, and what it leaves in the queue, the map and the VM, whether it succeeds or not |
| `StubDrives.LentAsAsked` | runtime/drive_handler.go:97-172 | whatever is reserved and released for others, a container's drive stays backed and mounted as the container asked, until it is released |
| `StubDrives.EveryRunConserves` | runtime/drive_handler.go:97-172 | over every sequence of Reserve and Release with any failures no drive is lost or lent twice, every mounted drive is in use, and every drive in use is patched to its own host path |
| `StubDrives.FreeAndUsedPermute` | runtime/drive_handler.go:97-172 | the IDs in the queue and in the map are together a permutation of the initial IDs |
| `StubDrives.PoolIsPermuted` | runtime/drive_handler.go:48-172 | the same from CreateContainerStubs on, for any pool size and any sequence of calls; and no free drive is mounted |
| `StubDrives.ExhaustedIffAllUsed` | runtime/drive_handler.go:109-111 | a reservation is refused for want of drives exactly when all drives are in use |
| `StubDrives.ReserveOkIff` | runtime/drive_handler.go:97-140 | a reservation succeeds exactly for a container without a drive, with a free drive whose mode the options do not contradict, if exposing, patching and mounting succeed; otherwise nothing is lent |
| `StubDrives.ReserveThenRelease` | runtime/drive_handler.go:97-172 | a reservation that is released restores map and mounts; the drive goes to the end of the queue, patched back to its stub |
| `EnvMerge.ReplaceOrAppendEnvValues` | runtime/firecrackeroci/vm.go:118-154 | the index cache, the overwriting and the compaction in place terminate and give: default slots with the last override of their key on its last slot, empty ones dropped in order, then the assignments of other keys in order |
| `EnvMerge.KeyIs` | runtime/firecrackeroci/vm.go:118-154 | the key of "k=v" is k for every k without "=", and an entry without "=" is its own key |
| `EnvMerge.AssignmentWins` | runtime/firecrackeroci/vm.go:118-154 | whatever the defaults and the earlier overrides are, after "k=v" as the last override a process sees that entry for k |
| `EnvMerge.NewKeysAreAppended` | runtime/firecrackeroci/vm.go:118-154 | assignments to keys that are no defaults come after all defaults, in their own order, and change none |
| `EnvMerge.MergedIsFolded` | runtime/firecrackeroci/vm.go:118-154 | if only the last slot of each default key holds anything, last-wins lookup in the result is what folding the overrides gives, for every key |
| `EnvMerge.ShadowedNotUnset` | runtime/firecrackeroci/vm.go:129-136 | a key that two default slots share is not unset when the earlier slot holds something |
| `EnvMerge.FoldedIffUnshadowed` | runtime/firecrackeroci/vm.go:118-154 | the merge means folding for all overrides and keys if and only if no default slot is shadowed |
| `ExecCleanup.TaskExecIDInjective` | agent/service.go:75-87 | no two accepted pairs of task and exec ID, the empty exec ID included, have the same key |
| `ExecCleanup.TaskService.DoCleanup` | agent/service.go:138-150 | calls what is registered under the key, last first, even if some fail, forgets it, and reports exactly those that failed; it is the step of the specification for every pair with that key |
| `ExecCleanup.ServiceMeetsReference` | agent/service.go:132-150 | over any interleaved run the calls made are those of a service that keeps one stack per pair instead of per key |
| `ExecCleanup.CallsAreOwn` | agent/service.go:132-150 | over any run the service calls each cleanup at most once and only for the pair that registered it |
| `Paths.UnderIffComponents` | agent/drive_handler.go:271-284 | for an absolute directory the string test holds if and only if it is the root, or the path is absolute and begins with the directory's components |
| `Paths.SpecialElements` | agent/drive_handler.go:271-284 | what an empty element, "." and ".." at the end of any path do to its elements |
| `Paths.IsSystemDir` | agent/drive_handler.go:231-244 | an error exactly if the links cannot be resolved or the destination is in or under a banned directory |
| `Paths.BannedIffFirstComponent` | agent/drive_handler.go:37-43 | refused are exactly the absolute paths whose first component is proc, sys or dev |
| `Volumes.Set.Add` | volume/set.go:77-79 | the volume is stored under "named_" and its name; nothing else changes |
| `Volumes.Set.AddFrom` | volume/set.go:82-88 | refused exactly for a provider name that is known |
| `Volumes.Set.CopyToHostFromProvider` | volume/set.go:90-112 | names the unnamed volumes in place, stores all and records their mounts in order, as the specification says; a failing provider changes nothing |
| `Volumes.Set.WithMounts` | volume/set.go:306-345 | succeeds exactly if every key is known, with one bind mount per mount point in order; otherwise the error names the first unknown one |
| `Volumes.Set.WithMountsFromProvider` | volume/set.go:348-355 | an error exactly for an unknown provider or a missing volume; otherwise the provider's recorded mounts in order |
| `Volumes.NameKeeps` | volume/set.go:101-107 | the key of a created volume is new: every generated name in the set has a number below the size of the set, and storing one more keeps that |
| `Volumes.ProviderMountsResolve` | volume/set.go:90-112 | whatever the volumes are called and whatever happens before and after, the mounts of a provider lead, in order, each to the volume stored last under its key since its last creation; these are the volumes it created, under different keys that were new, if no provider gives a volume a name that is in use or looks like one the set makes |
| `Volumes.AddedIsMounted` | volume/set.go:306-345 | in every run a mount by name leads to the volume added under it, until another one is: at the destination asked for, read-only exactly if asked, from the path in the VM or the directory of the name |
| `Volumes.NamesClash` | volume/set.go:101-110 | if two providers name a volume alike, the mount of the first leads to the volume of the second |
| `Volumes.ShareNameIff` | volume/set.go:264-287 | in every run, two volumes share a name if and only if one was added under a name under which a provider's volume is stored |
| `Volumes.ShareDirectoryIff` | volume/set.go:325-329 | in every run and for every volume directory, two volumes share the directory that mounts take as source if and only if their names lead there through the same path elements; if all names are single path elements, that is when they share a name |
| `Paths.CleanInjective` | volume/set.go:325-329 | two paths are cleaned to the same text if and only if both or neither start at the root and they have the same elements once dots and double dots are resolved |
| `Paths.ChildPathsDiffer` | volume/set.go:325-329 | joined to a directory, different single path elements give different paths |
| `Volumes.SharedName` | volume/set.go:264-287 | a run in which that happens |
| `CpuSet.Stringify` | runtime/cpuset/cpuset_builder.go:135-146 | the two loops print the numbers, then the ranges, joined by commas |
| `CpuSet.Builder.Build` | runtime/cpuset/cpuset_builder.go:125-133 | both lists are printed from their own numbers and ranges |
| `CpuSet.ListingRoundTrip` | runtime/cpuset/cpuset_builder.go:135-146 | under the "List format" of cpuset(7) the text reads back as exactly the numbers followed by the ranges if no number is negative and no range reversed, and not at all otherwise |
| `CpuSet.PrintedInOrder` | runtime/cpuset/cpuset_builder.go:92-146 | for any chain of builder calls and either list: it reads back as the numbers the calls added followed by the ranges, in the order of the calls, exactly if none of them is negative or reversed |
| `CpuSet.PrintedSetIsUnion` | runtime/cpuset/cpuset_builder.go:92-146 | for any chain of builder calls and either list: if it is readable it contains exactly the numbers the calls allow |
| `MetricsPorts.LeastFreeIsLeast` | snapshotter/demux/metrics/proxy.go:79-97 | the search finds the least free port of the range, or there is none |
| `MetricsPorts.Monitor.FindOpenPort` | snapshotter/demux/metrics/proxy.go:79-97 | the loop returns and marks the least free port, or fails and changes nothing; it is the allocation step of the state machine |
| `MetricsPorts.NewMonitor` | snapshotter/demux/metrics/proxy.go:54-59 | accepted are exactly the non-empty ranges of positive ports |
| `MetricsPorts.PortsInUseAreHeld` | snapshotter/demux/metrics/proxy.go:54-163 | in every interleaving of allocation, server exit, hand-back and reaping the marked ports are those of the proxies not yet reaped, pairwise distinct and in range |
| `MetricsPorts.PortComesBack` | snapshotter/demux/metrics/proxy.go:79-163 | from every reachable state the port of any proxy can come back, and is free then |
| `MetricsPorts.AllocationIsExact` | snapshotter/demux/metrics/proxy.go:79-163 | in every reachable state the next allocation gets the least port that no such proxy holds, and it fails if and only if all endPort - startPort + 1 ports are held |
| `SnapshotterCaches.RemoteSnapshotterCache.Get` | snapshotter/demux/cache/cache.go:107-134 | fetches only if the key is absent, and caches what it fetched under that key |
| `SnapshotterCaches.RemoteSnapshotterCache.Evict` | snapshotter/demux/cache/cache.go:152-167 | closes and forgets the snapshotter of the key, even if closing fails; an error exactly for a missing key or a failed close |
| `SnapshotterCaches.RemoteSnapshotterCache.List` | snapshotter/demux/cache/cache.go:94-104 | lists every key once |
| `SnapshotterCaches.RemoteSnapshotterCache.WalkAll` | snapshotter/demux/cache/cache.go:137-149 | walks every snapshotter once whether or not others fail, and reports exactly those that failed |
| `SnapshotterCaches.RemoteSnapshotterCache.Close` | snapshotter/demux/cache/cache.go:170-188 | leaves the cache empty and everything ever fetched closed exactly once; a second Close panics |
| `SnapshotterRuns.CloseIsOnce` | snapshotter/demux/cache/cache.go:170-174 | in every interleaving a Close panics if and only if another Close has come before it |
| `SnapshotterRuns.CachedWasFetched` | snapshotter/demux/cache/cache.go:107-134 | in every interleaving what is cached under a key was fetched for that key |
| `SnapshotterRuns.AnswersAreExact` | snapshotter/demux/cache/cache.go:107-167 | in every interleaving a Get returns a snapshotter that was fetched for its own key and fails if and only if its fetch did; an Evict closes only what was fetched for its own key and fails to find it if and only if the key was absent when it looked |
| `SnapshotterRuns.ConservedIffNoRace` | snapshotter/demux/cache/cache.go:107-188 | a step loses a snapshotter or closes one twice if and only if it inserts over an entry, or ends an eviction whose entry is no longer what it closed |
| `SnapshotterRuns.AlwaysConservedIffNoRaces` | snapshotter/demux/cache/cache.go:107-188 | all along any run each fetched snapshotter is in exactly one place, if and only if no step of the run is such a one |
| `SnapshotterRuns.OverlappingEvictionsCloseTwice` | snapshotter/demux/cache/cache.go:152-167 | two overlapping evictions close one snapshotter twice |
| `SnapshotterRuns.NoOverlapConserves` | snapshotter/demux/cache/cache.go:107-188 | in every run of calls that do not overlap, the fetched snapshotters are the disjoint union of those cached and those closed once |
| `SnapshotterRuns.OverlappingMissesLose` | snapshotter/demux/cache/cache.go:107-134 | two overlapping misses leave a snapshotter neither cached nor ever closed |

## Left out

- CreateDriveMountStubs: it runs the loop of CreateContainerStubs with other options; only the IDs it makes are modelled.
- Rate limiters, cache types and the other settings of a drive that are only copied.
- The retries with which the agent mounts a drive, and the unmounting of drives in the agent.
- The resolution of symbolic links before the test for system directories, which the operating system decides.
- Goroutine leaks: after a failed create nobody reads the channel of copying any more.
- The read of a file returns as many bytes as it can; a device that returns fewer for no reason is not modelled.
- Access to a process record without the lock is one step per assignment; Go's memory model is not modelled.
- Shim.Service.CreateTask: everything between the reservation and the registration (reading the bundle, marshalling, dialling) is one outcome, since none of it changes the tables.
- createVM is its order of steps, each of which may fail; what configuring and starting the VM involves is not modelled.
- Lifecycle.TerminateReports: states what a termination that returns has done; one that finds no jailer does not return (Lifecycle.ForcedPanicsIff), and how long a jailer takes to stop is not modelled.
- Whether a Shutdown request terminates at all (it was forced, or the shim exits with its last task) is an outcome in `Lifecycle.dfy`.
- The poll that notices a dead VMM under the runc jailer and cancels the shim.
- Monitor.Stop: a server that exits after the monitor has stopped would send on a closed channel.
- The lease that evicts snapshotters on connection failure, and the shutdown of its channels; an eviction is a call of Evict.
- CpuSet.ListingRoundTrip: the kernel also refuses numbers beyond the machine's, which depends on the machine.
- Copying the files of volumes and making disk images.
- Go slice aliasing between cpuset builders that branch from a common one; slices are values.
- The rules for identifiers that containerd enforces are modelled from their specification, since that code is not part of the repository; so are base32 and base64url.
- The RPC methods that only forward calls, the jailers, the vsock and FIFO connectors, the HTTP resolver, configuration and generated code: they keep no tables of their own and take part in none of the hand-shakes above.
