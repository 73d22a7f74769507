# fileshare, modelled

fileshare serves disk images and directories over SMB, NFS, WebDAV, SFTP and
S3. What is hard in it is not the protocols but the state behind them: processes
started for each person, volumes made by a provisioner that may die at any
point, a share list that changes while it is served, revocations that must not
be forgotten. This project models those parts and proves what they are for.

`dafny verify dfyconfig.toml` checks everything. One file is one module:

| modules | component |
|---|---|
| `WorkerPools`, `WorkerPoolRuns`, `WorkerPoolTimers` | the pool of per-person workers; every interleaving of its callers, timers, resets and Close; which timers can still fire |
| `WorkerPoolIdle`, `WorkerPoolHold` | the pool with a clock: how long a worker went unused, how long a failed start is held |
| `Provision`, `ProvisionService`, `ProvisionConfig` | the provisioner's transactions over memory, file and disk; the same in place; its configuration |
| `ProvisionSafety`, `ProvisionHolds`, `ProvisionLimits`, `ProvisionFrame`, `ProvisionSnapshots` | what every run keeps: records and tags, who holds a limit, which volumes have one, other volumes, snapshots |
| `ProvisionData`, `ProvisionQuota`, `ProvisionSizes` | what is in a volume; what requests about its size and for snapshots are answered; its limit against its record |
| `ProvisionResume`, `ProvisionRetry`, `ProvisionRemoval` | interrupted creations and deletes taken up again |
| `RemoveTree`, `RemoveRace` | recursive removal on one device; the same while another program changes the tree |
| `Drivers`, `DriverOwnership`, `DriverLists` | who owns an open driver while shares change; what an opened list is |
| `Generation`, `GenerationRuns`, `GenerationStops` | who owns a connection while servers are replaced; that a stop can end |
| `Access`, `AccessEntries` | the rules a share's lists come to |
| `Admin`, `AdminRuns`, `AdminEdits` | grants, what a share's access comes to, and what each call does |
| `Ordering`, `Reload` | the cheap reload path |
| `Caep`, `CaepRuns`, `CaepChecks` | revocation events, and what they void |
| `BigEndian`, `RevocationList`, `RevocationListRuns` | revocation lists |
| `Snapshots`, `SnapshotRuns`, `Routing` | files served from memory; several shares as one tree |
| `Framing`, `Identity` | the launcher's messages; what a worker runs as |
| `Overlap`, `Partitions` | no share a way into another; which partition a share is served |
| `Aligned` | reads of a raw device |

A concurrent component is a state machine: `Next` is one step between two points
where another goroutine may run (an action that is not possible changes
nothing), `Exec` the state after a sequence of them, and the main lemmas hold for
every sequence. A component that changes fields step by step is a class as well,
each method proved to do what the step says. Where the world takes part it is a
parameter: an effect that succeeds, fails before or after it happened, or is the
moment the process dies; what a directory, a server or a device answers.

## Where the code does less than it promises

Where a promise is not kept on every input the member named gives an input, or
the condition under which it is kept.

- Close of the worker pool may return while a timer callback, a forget or
  another reset still has a worker to close (`AfterClose`, `CloseMayReturnEarly`).
- A worker used again after its idle timer fired is closed by that timer's
  callback without having been idle (`ClosedOnceIdle`, `ClosedSooner`).
- A creation that finds no room for a directory drops a pending record even when
  an interrupted delete left its project limited (`LimitsStayHeld`, `RunHoldsLimits`, `LimitMayLeak`).
- A btrfs delete ignores an error when it looks for the subvolume: it then lifts
  the limit, forgets the record and answers that the volume is gone while it
  stays, for good (`DeleteLimited`, `GoneButStanding`, `StrandedForever`, `BlindRun`).
- A creation or a delete whose last save failed is answered from memory when it
  is repeated, and the file keeps what it had (`CreateResumesInProcess`,
  `UnsavedRun`, `DeleteResumesInProcess`, `StaleRun`).
- A creation is not taken up again when a delete removed the subvolume and left
  its pending record: it makes another subvolume, refuses it as somebody else's,
  and neither call gets any further unless the file still lacks the removed one's
  id at a restart (`FinishesExactly`, `DeleteFits`, `RefusesItsOwn`, `StuckStays`, `TornRun`).
- A btrfs snapshot that is made and not written down, by a crash or by an error
  that comes late, leaves a volume no delete removes (`DeletesExactly`,
  `StaysKept`, `StrayKeepsVolume`, `StrayRun`).
- A resize whose limit was set and whose record or save did not follow leaves the
  limit of a volume different from its size on record (`StaysInStep`, `ResizedRun`).
- A 304 that nobody asked for makes a restored revocation list current
  (`RestoredOnlyOrders`, `UnaskedRun`), and a state file that could not be written lets a
  restart go back (`RestartBackwards`, `ListLost`).
- A credential whose issue time is unknown is let in again once its revocation
  is pruned (`CheckIsExact`, `UnknownIssueTimeForgets`); an issuer and subject
  share their key with another pair exactly when a space could part them elsewhere
  (`SameKeyExactly`, `SpacesMeet`).
- A device that fails half way through a block is reported as ended
  (`BrokenReads`, `HalfBroken`).
- A reply that starts a worker may carry any string (`RepliesDecodeExactly`).
- `removeTree` stays on the device of the directory it is given: when that is
  itself a mount, what is mounted is removed (`RemoveAll`, `StaysOnDevice`, `MountIsEmptied`).
- Two shares that choose one partition of an image by different means, a number
  and a label, are taken for different partitions (`ApartBySameMeans`, `NumberAgainstLabel`).

## Model

| member | source | states |
|---|---|---|
| WorkerPools.WorkerPool.AcquireLocked | workerpool.go:84-121 | the section of acquire before it unlocks: refusal when closed or while a failure is held, a new worker with one reference, or one more reference and its idle timer stopped |
| WorkerPools.WorkerPool.DropFailedLocked | workerpool.go:104-111 | a failed start leaves the map if it is still there, and its error is held for the hold time unless the pool is closing |
| WorkerPools.WorkerPool.ReleaseLocked | workerpool.go:154-172 | one reference less; an unused worker still in the map gets a new idle timer |
| WorkerPools.WorkerPool.ExpireLocked | workerpool.go:162-171 | the timer callback takes the worker out of the map only when it is unused and still there |
| WorkerPools.WorkerPool.ForgetLocked | workerpool.go:175-183 | a dead worker leaves the map with its timer stopped, once |
| WorkerPools.WorkerPool.ResetLocked | workerpool.go:216-226 | the whole map is taken, held failures forgotten, and every timer a pooled worker points to stopped |
| WorkerPoolRuns.RefsAreHolders | workerpool.go:76-172 | over every interleaving, the reference count of a started worker is the number of acquires not yet released |
| WorkerPoolRuns.IdleTimerClosesUnheld | workerpool.go:154-172 | a worker an idle timer is closing, however late the timer, is held by nobody and out of the map |
| WorkerPoolRuns.HeldWorkerClosedOnlyDeadOrReset | workerpool.go:122-135 | a held worker is closed only by a reset or by a caller who found it dead |
| WorkerPoolRuns.OneStartInFlight | workerpool.go:96-102 | between two resets at most one start of a (person, share) is in flight |
| WorkerPoolRuns.NoWorkerLeaks | workerpool.go:96-240 | a started worker is closed exactly when it is neither in the map nor about to be closed by somebody; an unused one in the map has a timer running |
| WorkerPoolRuns.AfterClose | workerpool.go:234-240 | once Close has returned nothing starts, and every started worker is closed exactly when no callback, forget or other reset still has an open one to close; one nobody has still to close is closed |
| WorkerPoolRuns.CloseMayReturnEarly | workerpool.go:154-172 | a run in which Close returns while an idle timer's callback has yet to close a worker |
| WorkerPoolIdle.ClosedOnceIdle | workerpool.go:154-172 | over every run with a clock, a worker an idle timer closes is held by nobody and had gone unused for idle when that timer fired, unless it was taken and released again between then and the callback; then a newer timer is its own |
| WorkerPoolIdle.ClosedSooner | workerpool.go:16-18 | a run in which a callback closes a worker that was used a moment ago |
| WorkerPoolHold.HeldThenTriedAgain | workerpool.go:84-121 | over every run with a clock, an acquire is answered with the error of that person's failed start on that share, no worker made and none counted, exactly until the hold is over, and afterwards gets or waits for a worker of theirs; but once the pool closes, with that |
| WorkerPoolHold.FailureIsShared | workerpool.go:104-135 | a start that failed is answered to the one who made it and to all who waited |
| WorkerPoolTimers.RunningTimers | workerpool.go:118-226 | over every interleaving a timer still to fire is the only one of its worker that is, nobody holds the worker, and it is in the map unless the late callback of an earlier timer took it out to close it |
| ProvisionConfig.CheckApart | internal/provision/config.go:311-333 | accepts exactly when no two roots nest, no two id ranges meet, and neither the state file nor the socket lies under a root |
| ProvisionConfig.MeetingIsSharing | internal/provision/config.go:311-333 | two parents are refused exactly when some path is under both roots or some project id is in both ranges |
| ProvisionConfig.RangeRoundTrip | internal/provision/config.go:291-305 | a printed range is read back as it was meant exactly when 1 <= first <= last < 4294967295 |
| ProvisionConfig.AcceptedIsValid | internal/provision/config.go:311-333 | a configuration the check accepts is one the provisioner's guarantees assume |
| ProvisionConfig.NamesAreComponents | internal/provision/errors.go:23-23 | a name is a letter or digit and up to 62 more of those, dashes or underscores, so one component of a path |
| Provision.Find | internal/provision/state.go:105-112 | the record of a name, or none when no record has it |
| Provision.Remove | internal/provision/state.go:120-122 | exactly the records of other names are left |
| Provision.LowestFree | internal/provision/service.go:94-107 | the lowest id of the range no record holds, or none only when the records hold every id of it |
| ProvisionService.Service.Allocate | internal/provision/service.go:94-107 | the loop finds the lowest free id, or reports exhaustion only when the records cover the whole range |
| ProvisionService.Service.Get | internal/provision/state.go:105-112 | the loop finds the record the list has under that name |
| ProvisionService.Service.Drop | internal/provision/state.go:120-122 | the list without that name, in order |
| ProvisionService.Service.Save | internal/provision/state.go:127-158 | the file is the whole list in memory, or what it was |
| ProvisionService.Service.BackendCreate | internal/provision/projquota.go:110-125 | directory, ownership, tag, limit, group, in that order, stopping at the first that fails |
| ProvisionService.Service.CreateVolume | internal/provision/service.go:140-226 | the call changes memory, file and disk as the creation transaction says, whichever effect fails or dies |
| ProvisionService.Service.DestroyProject | internal/provision/projquota.go:142-150 | the tree, then the limits of its project |
| ProvisionService.Service.DestroySubvolume | internal/provision/btrfs.go:197-218 | the recorded snapshots, their directory, the subvolume and last its qgroup; an error looking for the subvolume is ignored |
| ProvisionService.Service.DeleteVolume | internal/provision/service.go:333-397 | the call changes memory, file and disk as the delete transaction says |
| ProvisionService.Service.ResizeVolume | internal/provision/service.go:259-293 | the limit, then the record, then the file |
| ProvisionService.Service.SnapshotVolume | internal/provision/service.go:295-323 | the snapshot, then its record, then the file |
| ProvisionSafety.RestartKeeps | internal/provision/state.go:66-101 | a start from the file, after a death at any point, is again a state in which everything agrees |
| ProvisionSafety.CreateKeeps | internal/provision/service.go:140-226 | a creation, whatever fails or dies in it, keeps records distinct, tags recorded in memory and file, and roots given to the group marked |
| ProvisionSafety.DeleteKeeps | internal/provision/service.go:333-397 | and a delete, however it fails, a failed look included |
| ProvisionSafety.ResizeKeeps | internal/provision/service.go:259-293 | a resize keeps it too, at every point it can fail |
| ProvisionSafety.SnapshotKeeps | internal/provision/service.go:295-323 | so does a snapshot |
| ProvisionSafety.RunKeeps | internal/provision/service.go:140-397 | the invariant of memory, file and disk over every run of calls, faults, crashes and restarts |
| ProvisionSafety.NoSharedProjectIDs | internal/provision/projquota.go:66-92 | in every reachable state no two volumes are tagged alike, each tag is recorded in memory and in the file, and no two records share an id |
| ProvisionLimits.DeleteLimited | internal/provision/service.go:333-397 | a delete leaves the root of any volume the group has limited, exactly unless it is that volume's own, on btrfs, and its look for the subvolume failed on the way to lifting the limit |
| ProvisionLimits.StaysLimited | internal/provision/service.go:140-397 | through every call, whatever fails in it, a limited volume stays limited exactly unless such a delete strikes it |
| ProvisionLimits.SharedRootsAreLimited | internal/provision/projquota.go:107-125 | over every run in which no such delete strikes this one volume, its root, once the group's, has a limit, and not zero, whatever befalls the others |
| ProvisionFrame.OthersUntouched | internal/provision/service.go:140-397 | a call on one volume, whatever fails in it, leaves the place, the snapshots and the record of every other as they were |
| ProvisionSafety.ProbeIsNeverOurs | internal/provision/projquota.go:66-92 | nothing an XFS, ext4 or btrfs volume carries makes an unrecorded one ours, so a taken name is refused |
| ProvisionHolds.LimitsStayHeld | internal/provision/service.go:204-219 | through every call a project id with a limit stays held by a record exactly unless the call drops that id's pending record while an interrupted delete has left it limited |
| ProvisionHolds.UnheldStays | internal/provision/service.go:333-397 | a limit no record holds is lifted by no call |
| ProvisionHolds.RunHoldsLimits | internal/provision/service.go:140-397 | after every run, with no condition on it, a project id with a limit is held exactly unless such a call dropped it and nobody has been given it since, whatever became of other ids |
| ProvisionHolds.LimitMayLeak | internal/provision/service.go:204-219 | three calls after which a limit is held by no record |
| ProvisionResume.CreateMidway | internal/provision/service.go:140-226 | a repeated creation, with any faults, stays between nothing and the finished volume; a clean one finishes it |
| ProvisionResume.CreateResumes | internal/provision/service.go:140-226 | after any number of interrupted creations, a restart and the same creation end in the records and disk of an uninterrupted one |
| ProvisionResume.CreateResumesInProcess | internal/provision/service.go:152-156 | without the restart the file agrees too exactly unless the last save of an earlier attempt failed, which is then answered from memory |
| ProvisionResume.UnsavedRun | internal/provision/service.go:152-156 | a run from nothing in which it does |
| ProvisionRetry.FinishesExactly | internal/provision/service.go:205-226 | from any state the provisioner can be in, a creation taken up again finishes the volume exactly when what stands there is the record's own or nothing does and the record has taken no subvolume's id; otherwise none is answered with success, whatever fails |
| ProvisionRetry.DeleteFits | internal/provision/btrfs.go:197-218 | through every delete an unfinished volume can still be finished exactly unless its subvolume was removed and then an error came late, the process died or the save failed, with the id recorded |
| ProvisionRetry.StaysFit | internal/provision/service.go:140-397 | so through every call on any volume |
| ProvisionRetry.AlwaysFinishes | internal/provision/service.go:140-397 | over every run of calls on any volumes, a volume left unfinished is finished by the next clean creation, before a restart and after: always for a directory, and for a subvolume unless such a delete of it was among them |
| ProvisionRetry.RefusesItsOwn | internal/provision/btrfs.go:142-167 | when a delete removed the subvolume and left the pending record, the creation makes another subvolume and is refused as taken |
| ProvisionRetry.StuckStays | internal/provision/btrfs.go:88-117 | a pending record over what is not its own is got no further by any creation, delete or restart |
| ProvisionRetry.TornRun | internal/provision/btrfs.go:142-167 | a run from nothing that ends so: the creation is refused and no delete removes what it made |
| ProvisionRemoval.DeleteMidway | internal/provision/service.go:333-397 | a repeated delete, with any faults, stays between the volume and nothing or forgets a standing subvolume, the latter only by a failed look; a clean one succeeds exactly unless it was forgotten |
| ProvisionRemoval.DeleteResumes | internal/provision/service.go:333-397 | after any number of deletes, whatever failed in them, a restart and the same delete succeed exactly unless a failed look left the volume unrecorded; then no record, nothing at the place and no limit on a project; a subvolume's limit may stay where an earlier attempt forgot it |
| ProvisionRemoval.DeleteResumesInProcess | internal/provision/service.go:342-356 | without the restart too, and the file agrees exactly unless an earlier delete's last save failed, when a stale record stays in it |
| ProvisionRemoval.StaleRun | internal/provision/service.go:342-356 | a run from nothing in which one does |
| ProvisionRemoval.GoneButStanding | internal/provision/btrfs.go:206-210 | a delete answers that the volume is gone and leaves it exactly when it is a subvolume that stands and the look for it failed; it is then unrecorded in memory and file |
| ProvisionRemoval.GoneLeaves | internal/provision/service.go:333-397 | what a delete answered as gone leaves from any state: no record in memory or file unless none was in memory before, the place and the project's limit cleared and nothing else, for btrfs no snapshots, and the limit only when its removal failed |
| ProvisionRemoval.StrandedStays | internal/provision/service.go:157-184 | an unrecorded volume is changed by no call on any volume and by no restart, and every call that names it is refused or fails |
| ProvisionRemoval.StrandedForever | internal/provision/service.go:140-397 | so over every run |
| ProvisionRemoval.BlindRun | internal/provision/btrfs.go:206-210 | a run from nothing that strands one |
| ProvisionSnapshots.DeletesExactly | internal/provision/btrfs.go:197-218 | a recorded volume is removed by a clean delete exactly when it is ours or absent and every snapshot beside it is recorded, and by no delete otherwise |
| ProvisionSnapshots.StaysKept | internal/provision/btrfs.go:181-190 | through every call the snapshots beside a volume stay recorded in memory and file exactly unless the call is a snapshot of it that is made and not written down |
| ProvisionSnapshots.AlwaysDeletable | internal/provision/service.go:333-397 | so over every run without such a snapshot of it, a volume that is ours or absent is removed by the next clean delete, before a restart and after |
| ProvisionSnapshots.StrayKeepsVolume | internal/provision/btrfs.go:181-190 | after such a snapshot and a restart no delete removes the volume; without the restart one can exactly when only the save failed |
| ProvisionData.FullIsRefused | internal/provision/service.go:376-384 | a delete without destroy_data of a volume with a file in it or a snapshot recorded changes nothing and is never answered as gone, whatever fails |
| ProvisionData.EmptyIsDeleted | internal/provision/service.go:333-397 | without a fault such a delete is answered as gone exactly when the volume can go and is empty |
| ProvisionData.GoneSays | internal/provision/service.go:357-397 | a delete answered as gone says whether there was anything to remove |
| ProvisionData.StaysWhole | internal/provision/service.go:140-397 | through every call, whatever fails in it, a volume loses a file or a snapshot exactly when the call is a delete of it that asks for destruction, finds it its own and comes as far as one |
| ProvisionData.RunStaysWhole | internal/provision/service.go:333-397 | over every run of calls and of writes by those who use other volumes, what was in a volume stays in it until a delete of it asks for destruction |
| ProvisionQuota.CreateAnswers | internal/provision/service.go:140-200 | what a creation is answered of a finished volume, of a taken place, and when there is no room or no id left, in terms of the request and the state |
| ProvisionQuota.ResizeLeaves | internal/provision/service.go:259-293 | the new limit on the id that stands there, the size recorded and the list saved, as far as the call came, and nothing else; a request that leads to no new limit changes nothing |
| ProvisionQuota.ResizeRefuses | internal/provision/service.go:268-283 | a resize is refused exactly below what is used or without room for what is added |
| ProvisionQuota.SnapshotLeaves | internal/provision/service.go:295-323 | the snapshot beside the volume, its name recorded and the list saved, as far as the call came, and nothing else; otherwise nothing, answered as done exactly when the name was recorded |
| ProvisionSizes.MadeLeaves | internal/provision/service.go:140-226 | a creation answered with success leaves the volume standing, its own, the group's, limited to the size asked for and recorded in memory and file; one that made nothing leaves everything |
| ProvisionSizes.StaysInStep | internal/provision/service.go:140-397 | through every call the limit of a finished volume stays the size recorded in memory and file exactly unless a resize set it and its record or save did not follow, or a blind btrfs delete lifted it and its save did not |
| ProvisionSizes.LimitIsSize | internal/provision/service.go:284-292 | so over every run without such a call on this volume |
| ProvisionSizes.ResizedRun | internal/provision/service.go:284-286 | a run from nothing after which a volume may hold 9 and has 7 on record |
| ProvisionRemoval.StrayRun | internal/provision/btrfs.go:181-190 | a run from nothing in which the volume cannot be deleted |
| RemoveTree.SiblingsShareNone | internal/provision/removetree.go:60-95 | the trees behind two names of one directory have no directory in common |
| RemoveTree.ChildGone | internal/provision/removetree.go:70-78 | emptying and unlinking one child leaves the rest of the directory as it was |
| RemoveTree.FileSystem.Unlink | internal/provision/removetree.go:97-102 | one name less, or nothing; a directory only when empty and no mount |
| RemoveTree.FileSystem.ReadNames | internal/provision/removetree.go:61-62 | a batch of at most 256 of the names there are, none only when there are none |
| RemoveTree.FileSystem.RemoveBelow | internal/provision/removetree.go:46-95 | ends despite rereading; on success every directory below is empty and was on the device; whatever happens nothing else changed |
| RemoveTree.FileSystem.RemoveAll | internal/provision/removetree.go:26-43 | on success exactly the named tree is gone; on any outcome nothing outside it, on another device than its own, or behind a link has changed; and once emptied, nothing off the parent's device has changed exactly when the directory is on that device or was empty |
| RemoveTree.StaysOnDevice | internal/provision/removetree.go:26-43 | a removal leaves the parent's device exactly when the directory is on another and holds anything |
| RemoveTree.MountIsEmptied | internal/provision/removetree.go:26-43 | a tree of two directories in which what is mounted on the volume is removed |
| RemoveRace.NothingElseTouched | internal/provision/removetree.go:15-102 | while another program changes its directories between any two calls, names are taken only out of those on the volume's device, and the volume's own out of its parent; every other directory, mount, file and link is as it was, and a removal that ends well leaves no name |
| RemoveRace.OnlyTheVolume | internal/provision/removetree.go:15-102 | so when the program can change no more than the volume's tree, only directories of that tree change |
| Drivers.SameImage | server.go:527-534 | a share that has this very image open, or none when none has |
| Drivers.Server.OpenSharesExpanding | server.go:338-420 | the loop opens or adopts a driver for every block, or closes what it opened |
| Drivers.Server.ReleaseShares | share.go:147-153 | closes the shares of one list whose driver the other does not hold |
| Drivers.Server.SwapTo | server.go:805-832 | the list is replaced and the old one released, or nothing when the server does not serve |
| Drivers.Server.ApplyChange | state.go:485-505 | open, write down, swap, in that order, undoing what was done when one fails |
| Drivers.Server.ReloadShares | reload.go:134-147 | open and swap, releasing the new list when the swap is refused |
| DriverOwnership.OpenSharesBuilds | server.go:338-420 | opening a list leaves one open driver an image, all of them held by the old list or the new, or only the old when it fails |
| DriverOwnership.ReleaseKeeps | share.go:144-153 | releasing a list against the one that stays closes no driver that one holds, and leaves open none it does not |
| DriverOwnership.FailedChange | state.go:489-505 | a change that fails leaves list, generation and drivers as they were, and the state file exactly when its write did not happen or was put back |
| DriverOwnership.OpenIffServed | server.go:338-420 | over every run of changes and reloads of a server made with any shares, a driver is open exactly when a served share holds it, no two are over one image, and a writable share holds one opened for writing and not forced read-only |
| DriverOwnership.ReadOnlyExactly | server.go:364-420 | over every run a share is read-only exactly when its block says so, nobody may write it, or its driver was opened read-only or is forced to be; and no block that would write is served over a driver opened without trying |
| DriverOwnership.OneImageOneDriver | server.go:374-395 | two served shares of one image are served over one driver |
| DriverLists.OneStops | server.go:338-420 | a block gets its share exactly unless its lists fail, its image cannot be opened, or it is open already over a driver nobody asked to write through and the block would |
| DriverLists.ListInOrder | server.go:338-420 | an opened list is a share for each block, in their order, and every new driver was opened for one of them as that one asks |
| DriverLists.ServedInOrder | state.go:485-505 | so after every change and reload that goes through, which is exactly when the list opens, is written down and the server runs |
| Generation.GenListener.AcceptLocked | generation.go:107-118 | under the lock a received connection joins the set, or is refused when the listener stopped meanwhile |
| Generation.GenListener.ShutSection | generation.go:140-145 | the set is taken once, and the listener is stopped from then on |
| Generation.GenListener.RemoveLocked | generation.go:182-186 | a closed connection leaves the set |
| GenerationRuns.OneOwner | generation.go:58-128 | every accepted connection was taken by exactly one listener, or is held or was closed by its feed |
| GenerationRuns.OpenIsExact | generation.go:102-128 | the open count of a feed is the number of connections taken and not counted out |
| GenerationRuns.OldConnectionsClosed | generation.go:250-257 | everything an older generation took is closed, counted out and forgotten while the current one serves |
| GenerationRuns.ServedAfterClosed | server.go:805-832 | the step that serves the new list finds every connection ever taken closed |
| GenerationRuns.NothingLeftOpen | server.go:785-797 | after shutdown, when a feed's accepting has ended, every connection it ever accepted is closed |
| GenerationRuns.SetIsExact | generation.go:107-186 | over every run the set of a listener that has not been stopped is exactly what it took and let in and nobody has closed for good; then it is empty |
| GenerationStops.ShutTakesAll | generation.go:140-157 | a shut stops the listener and takes all its connections to close; a second does nothing |
| GenerationStops.StopCanEnd | generation.go:250-257 | from every reachable state in which a stop has begun some steps end it, and the next generation serves every feed afresh |
| Access.CutColon | principal.go:60-76 | the text around the first colon, or that there is none |
| Access.SplitCovers | principal.go:60-76 | splitting a list into names and rules and expanding the names answers for exactly what its entries cover |
| Access.RulesMean | share.go:88-190 | a share admits exactly whom the entries written in its list cover, also when its groups have emptied, and everybody only when nothing was written; the same for writers |
| AccessEntries.EntryMeans | principal.go:60-134 | an entry admits whom its spelling says: for a rule, somebody the provider vouches for who is in that group, goes by that name or comes from that domain; otherwise somebody known by name who is in that group or is that one |
| AccessEntries.RefusedExactly | principal.go:60-76 | lists come to no rules exactly when one holds a rule that is not spelled as one, or a group the directory cannot answer about |
| Admin.ManagedShare.AddGrant | admin_grpc.go:475-488 | a grant replaces the subject's or is added, within the maximum and never a write on a read-only share; a refusal changes nothing |
| Admin.ManagedShare.RemoveGrant | admin_grpc.go:500-512 | a revocation takes out the subject's grant, never the last; a refusal changes nothing |
| Admin.ManagedShare.UpdateShare | admin_grpc.go:375-387 | read_only is refused while somebody is granted write |
| Admin.ReadGrants | admin_grpc.go:682-706 | the loop reads the grants asked for, each subject once |
| Admin.IndexOf | state.go:372-374 | the first share of a name, compared without case |
| AdminRuns.SubjectRoundTrip | admin_grpc.go:711-761 | a subject that is accepted reads back as it was given |
| AdminRuns.GrantRoundTrip | admin_grpc.go:744-761 | so does a grant, with its access |
| AdminRuns.DistinctSubjects | admin_grpc.go:708-742 | no two subjects are spelled alike, whatever their kinds |
| AdminRuns.GrantOnKeeps | admin_grpc.go:468-493 | after a grant the share has exactly the grants it had, but the subject's new one |
| AdminRuns.RevokeOnKeeps | admin_grpc.go:495-517 | after a revocation it has exactly the grants of the other subjects |
| AdminRuns.EditKeeps | admin_grpc.go:280-541 | every edit that is accepted keeps the shares well granted and the names apart |
| AdminRuns.SharesStayGranted | admin_grpc.go:280-541 | over every run of calls, from any state file earlier lives left, each API share has 1 to 1000 grants to distinct subjects, no write when read_only, and a name of its own |
| AdminRuns.CoversAsGranted | principal.go:60-103 | the entry a subject is spelled as covers exactly whom the subject means |
| AdminRuns.AccessIsGrants | state.go:93-117 | over every such run, opened from its block a share is used by exactly whom it grants and written by exactly whom it grants write, also when a group expands to nobody |
| AdminRuns.OnlyOutagesRefuse | reload.go:182-214 | with the directory up, every API share's lists expand |
| AdminRuns.DisablesExactly | admin_grpc.go:431-466 | a call takes offline, or brings back, exactly the share it names |
| AdminEdits.AcceptedSubjects | admin_grpc.go:711-742 | a subject is accepted exactly when it is 1 to 256 characters without control characters and, for a user or a group, without spaces and not spelled as another kind |
| AdminEdits.GrantsTaken | admin_grpc.go:682-706 | a list of grants is taken exactly when each is complete and no two are to one subject, and is then the one asked for |
| AdminEdits.CreateDoes | admin_grpc.go:280-340 | which creations are accepted and how the others are refused; the share comes last with exactly what was asked for, disabled as asked, and every other stays |
| AdminEdits.UpdateDoes | admin_grpc.go:364-392 | an update sets what was asked for on the share named and nothing else anywhere; when it is refused, and how |
| AdminEdits.DeleteDoes | admin_grpc.go:394-407 | a delete takes out the share named, whose name is then free and not disabled; the others stay in their order |
| AdminEdits.DisableDoes | admin_grpc.go:431-466 | taking offline or bringing back is refused exactly for a share there is not or that is so already |
| AdminEdits.GrantDoes | admin_grpc.go:468-493 | a grant gives its subject what was asked on the share named, and changes no other grant and no other share; when it is refused, and how |
| AdminEdits.RevokeDoes | admin_grpc.go:495-517 | a revocation takes exactly the subject's grant off the share named; when it is refused, and how |
| Ordering.CanonicalIs | reload.go:242-247 | sorting and compacting gives the elements in order, each once |
| Ordering.CanonicalDecides | reload.go:242-247 | comparing the sorted and compacted lists decides exactly whether they hold the same elements |
| Reload.ChoosePath | reload.go:64-132 | the loops take the in-place path exactly when nobody known before is gone or changed and no list expands differently, and fail exactly when a list cannot be expanded |
| Reload.SameSetDecides | reload.go:242-247 | two lists are the same set exactly when each name of one is in the other |
| Reload.CheapPathIsExact | reload.go:99-132 | the in-place path is taken exactly when nobody is gone or changed and every principal has, by the fresh lists, the access every share is served with |
| Caep.RevocationStore.Revoke | caep.go:103-113 | every named subject's time is raised, old ones pruned, and the file written before the event is acknowledged |
| Caep.RevocationStore.Prune | caep.go:117-124 | exactly the entries not older than retain are left |
| Caep.RevocationStore.Check | caep.go:153-178 | refused when the transmitter is silent too long, or when a key of the person was revoked at or after the issue time, or has any revocation when that time is unknown |
| CaepRuns.StoreIsPrunedLog | caep.go:103-124 | over every run with a monotone clock the store is the pointwise maximum of the events, less those older than retain at the last one |
| CaepRuns.OrderLeavesNoTrace | caep.go:103-113 | the same events in any order and any number of times leave the same store |
| CaepRuns.CheckIsExact | caep.go:153-178 | for every credential the store answers as the whole log exactly unless the transmitter is heard, the person's latest revocation is before the last prune's cutoff, and the credential is no later than it or of unknown issue time |
| CaepRuns.VoidsByLatest | caep.go:153-178 | the log voids by the latest revocation of any key against the issue time; the store does when that is not before the cutoff |
| CaepRuns.LivingCredentialsSeeWholeLog | ssf.go:79-86 | a credential issued at a known time no longer ago than retain is answered as by the whole log |
| CaepRuns.CutoffIsTheBound | caep.go:103-124 | an issue time is safe whatever was received exactly from the cutoff on |
| CaepRuns.UnknownIssueTimeForgets | caep.go:150-178 | a run with the transmitter heard in which a credential of unknown issue time is good by the pruned store and void by the whole log |
| CaepRuns.AcknowledgedHolds | caep.go:100-113 | an acknowledged revocation survives failed saves and restarts, and voids what was issued up to it for as long as retain |
| CaepRuns.NothingInvented | caep.go:103-113 | every entry is what some event said |
| CaepRuns.KeysDoNotMeet | caep.go:82-90 | an account, a provider's subject and an institution are never one key |
| CaepRuns.SameKeyExactly | caep.go:85-85 | another non-empty issuer and subject have the key of these exactly when the two written together hold a space that is not the parting one, nor first or last |
| CaepRuns.IssSubIsOne | caep.go:85-85 | two provider subjects are one key only for equal issuers without spaces |
| CaepRuns.SpacesMeet | caep.go:85-85 | two different subjects with one key, when an issuer holds a space |
| CaepChecks.VoidExactly | caep.go:150-178 | over every run, with the transmitter heard, a credential is void exactly when some event not cut off, no earlier than its issue time, names the account, the issuer and subject, or the institution after the last @ of the name in small letters |
| CaepChecks.KeysAre | caep.go:160-176 | the keys looked for are exactly those that name the person, written out |
| BigEndian.ValueOfPut | revocation.go:311-314 | a number that fits reads back from its bytes |
| BigEndian.PutOfValue | revocation.go:316-326 | and bytes are those of the number they read as |
| RevocationList.StateRoundTrip | revocation.go:307-326 | a state file decodes to the list and signature it was made of |
| RevocationList.OnlyEncodingsDecode | revocation.go:316-326 | and nothing decodes but the encoding of what it decodes to |
| RevocationList.Client.constructor | revocation.go:328-358 | the start verifies the state file again and holds its list without a fetch time |
| RevocationList.Client.FetchListOnce | revocation.go:200-305 | one answer: confirmed, refused, issued again, or taken when verified, read and not older |
| RevocationList.Client.FetchList | revocation.go:162-168 | a list issued again while its signature was fetched is fetched again, once |
| RevocationListRuns.GetExactly | revocation.go:128-144 | over every run a list is answered with exactly while one is held, the last answer since the start that vouched for those bytes is no older than max_age, and it has not reached its own end |
| RevocationListRuns.AnsweredHow | revocation.go:200-305 | which answers confirm the list held, replace it, ask again or are refused, in terms of the answer and what is held, and what each leaves |
| RevocationListRuns.NewestHeld | revocation.go:288-300 | over every run the list held is one this process was shown, by its state file or a genuine answer, and none it was shown is newer |
| RevocationListRuns.TagIsOfTheCopyHeld | revocation.go:220-228 | a conditional request carries the tag the copy held was served with, never that of a refused list |
| RevocationListRuns.RestoredOnlyOrders | revocation.go:328-358 | a restored copy answers nothing; a fetch confirms it exactly when it carries its bytes or is a 304 nobody asked for (RFC 9110, section 15.4.5) |
| RevocationListRuns.UnaskedRun | revocation.go:328-358 | a run in which a restored list is answered with, however much later, after a 304 nobody asked for |
| RevocationListRuns.NeverBackwards | revocation.go:288-293 | over every run of answers, failures and restarts whose accepted lists were written down, the list held is never older than one held before |
| RevocationListRuns.NeverBackwardsInProcess | krl_sftp.go:37-41 | within one process that needs no write |
| RevocationListRuns.RestartBackwards | revocation.go:332-358 | over every run a restart holds the last list that was written down, so it loses ground exactly when none was or the one held is newer (the order of RFC 5280, sections 5.2.3 and 6.3.3) |
| RevocationListRuns.ListLost | revocation.go:288-305 | a run in which list 2 was held and a restart is back at list 1 |
| Snapshots.Cache.OpenHandle | unionfs.go:327-340 | a handle on the snapshot the path has, or on a new unread one |
| Snapshots.Cache.Bytes | unionfs.go:343-360 | the first read loads the file within the bounds, or refuses it and counts nothing |
| Snapshots.Cache.CloseHandle | unionfs.go:363-372 | one reference less; the last frees the bytes, the path and the count |
| Snapshots.CopyAt | unionfs.go:388-407 | copies what the read of the bytes says, and leaves the rest of the buffer |
| SnapshotRuns.AccountingIsExact | unionfs.go:297-372 | over every run references are open handles, what is held is within 64 MiB a file and 512 MiB in all, and the counter is exact when no refused read is being counted out |
| SnapshotRuns.OnePathOneSnapshot | unionfs.go:325-340 | open handles on one path of one share read the same |
| SnapshotRuns.ReadsStay | unionfs.go:342-360 | a handle that was read reads the same bytes until it is closed |
| SnapshotRuns.ReadsItsOwnFile | unionfs.go:325-407 | over every run a read gives, from the offset on, as much as was asked for and is left of bytes the driver answered for the very share and path the handle was opened on, and the end exactly when that is less |
| SnapshotRuns.LoadsExactly | unionfs.go:343-360 | a file is taken into memory exactly when it is no more than 64 MiB and fits in 512 MiB with what is there; otherwise nothing is counted |
| SnapshotRuns.AllClosedIsEmpty | unionfs.go:362-372 | when every handle is closed nothing is held, counted or found |
| Routing.FindEntry | unionfs.go:95-111 | the loop finds the share the resolved path names |
| Routing.StaysInItsShare | unionfs.go:89-111 | a path that does not climb is the share's own, and reaches the driver clean |
| Routing.ClimbsToTheRoot | unionfs.go:89-111 | one that climbs out is at the root, and reaches only what the rest of it names from there |
| Routing.WritesOnlyInside | unionfs.go:222-236 | a write reaches a driver exactly inside a share that is not read-only for the person |
| Routing.RenamesWithinOne | unionfs.go:194-210 | a rename exactly within one such share |
| Framing.Connection.WriteMsg | internal/launch/launch.go:238-253 | the whole frame, its descriptor with the first byte, or a beginning of it when a write fails |
| Framing.Connection.ReadFull | internal/launch/launch.go:277-304 | fills the buffer however the stream is cut up, collecting the descriptors on those bytes |
| Framing.Connection.ReadMsg | internal/launch/launch.go:257-274 | exactly the next message and its descriptors, and not a byte of the one after |
| Framing.FrameRoundTrip | internal/launch/launch.go:238-274 | a message written is the next one read, with its own descriptors |
| Framing.AllMessagesArrive | internal/launch/launch.go:238-304 | all that was written is read, in order, each message with its own descriptors |
| Framing.Deliver | internal/launch/launch.go:238-304 | messages of at most one descriptor, written one after the other until a write fails and read until reading stops, in any chunks: exactly those written whole arrive |
| Framing.WholeOnesArrive | internal/launch/launch.go:238-304 | messages and the beginning of one more are read as just the messages |
| Framing.CutFrameIsNone | internal/launch/launch.go:255-274 | a message cut short is never read as one |
| Framing.TooLongIsRefused | internal/launch/launch.go:262-266 | a message longer than the reader takes is refused by its length |
| Framing.RequestsDecodeExactly | internal/launch/launch.go:191-202 | a request decodes exactly when it encodes two names of 1 to 256 bytes, and to those |
| Framing.ReplyRoundTrip | internal/launch/launch.go:209-232 | a reply comes back as it was given, its reason cut at 1024 bytes |
| Framing.RepliesDecodeExactly | internal/launch/launch.go:220-232 | exactly a status and one string of at most 1024 bytes decodes; the string of a start is not looked at |
| Framing.RequestArrives | internal/launch/launch.go:133-137 | a request over the wire arrives as the names it was made of |
| Identity.Apply | internal/account/account.go:191-223 | refuses what the policy forbids and sorts the groups into kept and dropped |
| Identity.AppliedExactly | internal/account/account.go:191-223 | an account is accepted exactly when neither id is root's, 4294967295 or below its minimum and the uid is not denied; its groups are then sorted, each once, the primary gid and exactly the ones asked for that are not root's, 4294967295 or below the minimum, and the others are dropped |
| Identity.UintRoundTrip | internal/launch/worker.go:100-112 | a number printed in decimal parses back |
| Identity.JoinSplit | internal/launch/worker.go:110-110 | joined with commas and split again, a list is itself |
| Identity.ParseExpect | internal/launch/worker.go:210-226 | the loop reads every group or refuses the list |
| Identity.ArgsRoundTrip | internal/launch/worker.go:100-112 | the worker reads back the ids its arguments were printed from, exactly when none of them is 4294967295 or wider than an id |
| Identity.Verify | internal/launch/worker.go:139-177 | accepts exactly a process with the expected ids, the expected set of groups apart from the primary gid, not root and with no way back to it |
| Identity.WorkerRunsAsAccount | internal/launch/worker.go:139-226 | from policy to check: the worker accepts exactly a process running as the account the policy accepted |
| Overlap.WithinIsPrefix | config.go:1193-1197 | the test on the relative path's text decides exactly whether the directory's components begin the path's |
| Overlap.OverlapIsSharing | config.go:1226-1253 | two shares are refused exactly when some path is reached through both, unless they choose different partitions of one image |
| Overlap.CheckNoShareHoldsShare | config.go:1226-1253 | accepts exactly when nothing changed overlaps anything of another name |
| Overlap.ChangeKeepsApart | state.go:460-481 | an accepted change leaves all shares apart although only what it writes is compared |
| Overlap.NeverAWayIn | server.go:292-308 | from an accepted start, over every sequence of changes, all shares stay apart |
| Overlap.NoPathTwice | config.go:1213-1253 | a path reached through two shares is one image of which they choose partitions, written differently |
| Partitions.FirstOf | partition.go:61-107 | the first partition of the table that has the name or the id, or that none has |
| Partitions.ApartBySameMeans | partition.go:61-107 | two shares that chose differently are served different partitions, for every table of distinct names and ids, exactly when they chose by the same means |
| Partitions.ServedApart | config.go:1199-1253 | over every sequence of changes, two shares that reach one path are never served one partition exactly when they chose by the same means |
| Partitions.NumberAgainstLabel | partition.go:61-107 | a number and a label that are accepted together and are both served the second partition |
| Aligned.RequestIsAligned | device_aligned.go:56-63 | the request starts on a block, covers what is asked for of what there is, and is whole sectors on a device of whole sectors |
| Aligned.ReadAt | device_aligned.go:45-80 | what arrived of the bytes asked for, copied, and the rest of the buffer left |
| Aligned.RoundedIsPlain | device_aligned.go:45-80 | the bytes and the end-of-file answer of a plain read, at every offset and length |
| Aligned.BrokenReads | device_aligned.go:66-79 | a request the device fails half way is answered as the plain read exactly when everything asked for had arrived |
| Aligned.HalfBroken | device_aligned.go:66-79 | a read of two sectors of which one arrives, answered as the end of the device |

## Left out

- The protocol servers, TLS, ACME and OIDC: only the access decisions they ask of a share are here.
- Signatures of lists, tokens and certificates: a function that says genuine or not.
- ZFS volumes: a dataset carries its own mark and an unrecorded one is taken back; only the directory and btrfs kinds are modelled, so `create`'s branch for a marked dataset is not.
- HCL parsing, sizes with suffixes, and the independent checks of a configuration.
- Worker processes and timers are indices into tables that only grow, where the code has pointers; a record is a value in the list, rewritten where the code changes it through its pointer.
- The exact use of a worker whose start failed: those who waited for it return without releasing, so its count is not stated.
- WorkerPoolRuns.RefsAreHolders: says nothing of a worker that is starting or failed, because the code over-counts those.
- Subvolume uuids are one with subvolume ids, which are never given out twice.
- ProvisionLimits.SharedRootsAreLimited: says the limit is not zero on every run; that it is the size recorded needs the condition LimitIsSize has.
- ProvisionResume.CreateResumes: leaves out the time of creation, which is the attempt's own.
- Free space and used bytes are answers that come with the request; but for those who use a volume (ProvisionData), nothing else writes under the provisioner's roots.
- RemoveTree.FileSystem.RemoveAll: is about a tree nobody else changes, where it can say what success leaves; RemoveRace says what stays safe when somebody does. Neither models a bind mount of the same filesystem, which the code cannot tell from a directory.
- Drivers: the serve functions between stop and start are one step, and closing the whole server at the end is not an action.
- Generation: a listener's Accept runs inside its serve function; adding to the open count is one step with the receive.
- AdminRuns.AccessIsGrants: is about a share whose image opened; volumes, source roots and the strict check of the people named are not modelled, and can only refuse more.
- Names are compared by folding ASCII letters; a byte length is a count of characters; a printable character is one that is no control character.
- Fingerprints of people are strings that are equal or not.
- Times are integers from the zero time, and the clock of the revocation store does not go back.
- RevocationListRuns.NeverBackwards: assumes the accepted lists were written down and no longer than the reader takes, which is the condition it is about.
- Snapshots: a call on a handle does not overlap the Close of that handle.
- Framing: the stream is everything written up to its close, and a receive that cuts off descriptors hands over the first of them.
- Identity: flags are parsed as decimal numbers; looking accounts up is not part of this model.
- Overlap: paths are absolute, clean and resolved, as lists of components, and a source resolves to the same path at every change.
- Partitions: a table is what the image's own lists, which partitions are there in which order; ids are compared in lower case and not in their other spellings; a table that cannot be read serves nothing and is not part of this model.
- Aligned: offsets and lengths do not reach the width of an int64.
- Routing: paths come split at their slashes.
