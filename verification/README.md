# A verified model of piccolod's stateful core

piccolod runs apps on a home server. This project models the parts of it whose promises are about whole runs, and
proves those promises for every run:

- **Ports and the service registry** (`ports.dfy`, `registry.dfy`, `registry_runs.dfy`, `service_manager.dfy`,
  `install.dfy`). Two cursor-based port pools feed a registry of published listeners through allocate, reconcile,
  restore, remove and reserve. The registry is a state machine over values (`Registry`), its laws over all runs are in
  `RegistryRuns`, and the classes `PortAllocator` and `ServiceManager` are proved to implement it loop by loop. The
  install retry drives them against a container runtime that may answer anything.
- **Locking, volumes and the control store** (`control_store.dfy`, `volumes.dfy`, `lock_protocol.dfy`,
  `commit_feed.dfy`). A cache over transactional tables, a desired/observed journal over real mounts, the protocol that
  keeps lock flag, store, volumes and lock events in step, and the race between leader callbacks and follower polls to
  announce revisions. Mounts, commits, file writes and key access succeed or fail at will.
- **Key wrapping** (`vault.dfy`, `keyset.dfy`). `Vault` says what the key manager promises without any cryptography;
  `Keyset.Manager` implements it with sealed wrappers, a key file and a key buffer that is zeroed in place.
- **mDNS** (`rate_limiter.dfy`, `name_conflict.dfy`). The per-client limiter with an exact numeric bound, and name
  conflict resolution as a protocol between packet handlers and resolver goroutines, in the setting of section 9 of
  RFC 6762.
- **Remote routing** (`routing.dfy`). The remote resolver and the TLS mux, which decide the same question separately.

Conventions. What the environment does to an operation (how far a write gets, what an attach meets) is a parameter of
the method, so that its contract says exactly which outcome follows from which; the drivers that run many operations
(`Serve`, `ReconcileAll`) take these parameters from `*`, so their contracts cover every outcome. Ideal cryptography: a
derived key is the tuple of everything it was derived from, a sealed box opens only under its own key and nonce, a
digest is its input. File replacement is all-or-nothing. Counters and revisions are unbounded. Map iteration order is
left open.

## What turned out not to hold

The model follows the code. Where a promise fails, a lemma or a method gives a failing case, and another contract says
exactly when the promise is kept.

- Releasing a port below a pool's range makes the next allocation hand it out
  (`Ports.StrayReleaseIsHandedOut`, `Ports.ReleaseKeepsIff`). The service manager never does this.
- Removing an app undoes its allocation exactly when the listener names are distinct and the app was not registered
  (`RegistryRuns.AllocateThenRemoveIff`). Otherwise the host ports of replaced entries and of repeated names, and no
  others, are in use for good (`RegistryRuns.LostPortsExactly`, `RegistryRuns.SecondAllocationLosesAPort`,
  `RegistryRuns.RepeatedNameLosesAPort`). The parser of app definitions refuses repeated names before an installation
  gets here (internal/app/parser.go:176-178). An app that is registered already does get here: an allocation that runs
  out of ports leaves it half registered, and the next installation replaces what is left
  (`RegistryRuns.LeftoverLosesAPort`).
- A reconcile gives no ports back: those of listeners it removes stay in use for good
  (`RegistryRuns.RemovedListenerLosesItsPort`), and so do those that a reconcile or restore had handed out before it
  failed. `RegistryRuns.PinnedExactly` says for every operation which host ports are lost, and that none comes back.
- A write to the control store that is rolled back stays in the cache, for readers to see, until a lock and unlock
  (`ControlStore.AgreementKeptIff`, `ControlStore.RelockRestoresAgreement`).
  - A rolled-back password hash becomes durable with the next committed initialisation
    (`ControlStore.UndoneHashIsStoredLater`); a commit stores what was meant exactly when the cached auth field it also
    rewrites is the stored one (`ControlStore.CommitIsFaithfulIff`, over whole runs `ControlStore.TablesReplayIff`).
  - A rolled-back initialisation makes the next one report success without storing anything
    (`ControlStore.UndoneInitialisationIsAcknowledged`); an initialisation that reports success has stored its flag
    exactly when no rolled-back one is open (`ControlStore.AcknowledgedInitialisationIff`).
  - The next commit of anything digests the rolled-back write too, and its checksum stays wrong over locks
    (`ControlStore.UndoneHashIsDigested`); the checksum describes the tables exactly when the cache agreed with them at
    the last commit (`ControlStore.ChecksumDescribesIff`).
- A restart whose stat of the key file fails takes the key to be absent, and setup then replaces it
  (`Vault.StatFailureLosesTheKey`, `Vault.KeyReplacedIff`).
- A follower mounts its volumes read-only and then writes a marker into them, so an attach as follower mounts the volume
  and always reports failure, and a follower cannot unlock (`LockProtocol.Module.FollowerCannotUnlock`,
  `LockProtocol.Module.AttachControl`, `Volumes.FileVolumeManager.Attach`).
- A lock that reports success leaves the control volume mounted exactly when it was mounted without its marker file
  (`LockProtocol.Module.UnmarkedMountSurvivesLock`, `LockProtocol.Module.SetLockState`).
- A loaded store loses its volume exactly when an unlock of an unlocked module fails on bootstrap and its clean-up
  detach works; a flag that says unlocked is left over an unloaded store exactly when a lock fails
  (`LockProtocol.Module.SecondUnlockPullsTheVolume`, `LockProtocol.Module.FailedLockUnloadsTheStore`,
  `LockProtocol.Module.SetLockState`).
- The comments promise 10 queries per second and 100 per minute. That holds for every stretch of granted queries except
  in two cases. The query that creates a client's record is not counted, so a stretch that starts with it can be one
  over (11 and 101). Queries at the very nanosecond a block ends are granted without ending it, so a stretch with such
  queries can be a whole burst over (20 and 110). All these numbers are exact maxima
  (`RateLimiter.RateBound`, `RateLimiter.DefaultRates`, `RateLimiter.RateBoundIsReached`).
- The limit per minute also refuses clients far below it, since every gap of up to a minute goes on counting: one query
  every 59 seconds is blocked after 101 of them (`RateLimiter.SlowClientIsBlocked`,
  `RateLimiter.SteadyClientIsBlocked`). Exactly which queries are refused, from the client's history alone, is
  `RateLimiter.VerdictExactly`.
- A packet that is let through and then does not parse is counted as malformed without being counted again in the total,
  so total = let through + refused holds exactly when every packet let through parses
  (`RateLimiter.UnparsedPacketCountsTwice`, `RateLimiter.GrantedSumIff`); counting only those that parse, the sum always
  holds (`RateLimiter.EveryPacketIsAccountedFor`).
- Without a configured domain the TLS mux refuses every connection that the resolver sends to it for a listener
  (`Routing.MuxRefusesAMatchedHost`, `Routing.RoutersAgree`, `Routing.DomainsAgreeIff`).

## Model

| member | source | states |
|---|---|---|
| `Ports.Pool.LeastFree` | internal/services/allocator.go:67-84 | the result is free and everything below it is used; no result means the whole interval is used |
| `Ports.Scan` | internal/services/allocator.go:48-84 | the circular scan ends within one lap on the first free port from the cursor, or reports a full range |
| `Ports.NextFreeIsFirstInCyclicOrder` | internal/services/allocator.go:28-65 | the port found is strictly nearer to the cursor, walking with wrap-around, than any other free port; none is found iff none is free |
| `Ports.PackedPoolIsFirstFit` | internal/services/allocator.go:67-84 | when every port below the cursor is used, the scan returns the least free port of the range |
| `Ports.TakeKeeps` | internal/services/allocator.go:52-57 | taking a free port keeps the cursor in range, and keeps "everything below the cursor is used" when it is the scanned port |
| `Ports.ScanAfterTake` | internal/services/allocator.go:87-99 | after a reservation ahead of the cursor the next port is the first free one behind it, wrapping to the start |
| `Ports.ScanIgnoresTakeBehind` | internal/services/allocator.go:87-99 | a reservation behind the cursor does not move the scan |
| `Ports.ReleaseKeepsIff` | internal/services/allocator.go:106-118 | a release keeps the cursor in range iff the port is not below the range, and never breaks first-fit |
| `Ports.StrayReleaseIsHandedOut` | internal/services/allocator.go:106-127 | a released port below the range is what the next scan returns |
| `Ports.PoolRunSound` | internal/services/allocator.go:28-118 | over all runs of allocate, reserve and give-back the cursor stays in range, and without reservations the pool is first-fit |
| `Ports.TakePairSound` | internal/services/allocator.go:35-46 | a pair is two free ports, both then used; a refused pair leaves both used sets as they were |
| `Ports.PairRefusedIff` | internal/services/allocator.go:35-46 | a pair is refused iff the host pool or the public pool is full |
| `Ports.TakePairsSound` | internal/services/allocator.go:35-46 | a series of pairs, cut short or not, is distinct, was free, and is exactly what the used sets gained |
| `Ports.CutShortIsFull` | internal/services/allocator.go:35-46 | a series of pairs is cut short only by a full pool |
| `Ports.PortAllocator.constructor` | internal/services/allocator.go:17-26 | a new allocator has empty, well-formed pools |
| `Ports.PortAllocator.AllocateHost` | internal/services/allocator.go:48-65 | takes the first free port in cyclic order or changes nothing |
| `Ports.PortAllocator.AllocatePublic` | internal/services/allocator.go:67-84 | the same for the public pool |
| `Ports.PortAllocator.AllocatePair` | internal/services/allocator.go:35-46 | both ports or neither |
| `Ports.PortAllocator.ReserveHost` | internal/services/allocator.go:87-99 | succeeds iff the port is in range and free, and then it is used |
| `Ports.PortAllocator.FreeHost` | internal/services/allocator.go:106-111 | the port is free again; the allocator stays valid iff the port is not below the range |
| `Ports.PortAllocator.FreePublic` | internal/services/allocator.go:113-118 | the same for the public pool |
| `Ports.PortAllocator.Release` | internal/services/allocator.go:120-127 | gives back the positive ones of two ports |
| `Registry.AllocateKeepsInv` | internal/services/manager.go:318-355 | allocation, complete or cut short, keeps port ownership exclusive and frees no pinned port |
| `Registry.SwitchKeepsInv` | internal/services/manager.go:266-362 | an app may switch to any entries that keep their ports or have fresh ones: ownership stays exclusive |
| `RegistryRuns.RemoveKeepsInv` | internal/services/manager.go:711-723 | removal frees only the app's own ports |
| `RegistryRuns.RestoreKeepsInv` | internal/services/manager.go:266-315 | restoring from running containers, also when it fails half-way, keeps ownership exclusive |
| `RegistryRuns.RestoreExactly` | internal/services/manager.go:279-308 | restored in order are exactly the listeners whose guest port the container publishes on a host port that is in range, free and not an earlier listener's; each gets that host port and its own configuration; only a full public pool leaves some out, and then the restore fails |
| `RegistryRuns.RestoredEntries` | internal/services/manager.go:288-314 | a failed or empty restore leaves the app unregistered; otherwise it has exactly the restored names, the last endpoint of each |
| `RegistryRuns.ReconcileKeepsInv` | internal/services/manager.go:599-695 | the same for reconcile |
| `RegistryRuns.ReserveKeepsInv` | internal/services/manager.go:358-362 | the same for a reservation, whose port becomes pinned |
| `RegistryRuns.RunKeepsInv` | internal/services/manager.go:266-362 | every run keeps the invariant, and pinned host ports stay pinned |
| `RegistryRuns.OthersAreLeftAlone` | internal/services/manager.go:266-362 | over any run an app that no operation names keeps its entries |
| `RegistryRuns.EveryRunIsConflictFree` | internal/services/manager.go:45-58 | from a fresh manager, any two endpoints of any run differ in both ports, each in its range and marked used |
| `RegistryRuns.AllocatedAsAsked` | internal/services/manager.go:324-346 | an allocated listener is published with its own name, guest port, flow, protocol, middleware and remote ports (80 and 443 if it names none) on the pair drawn for it |
| `RegistryRuns.PublicPortsAreFirstFit` | internal/services/allocator.go:67-84 | in every run of the manager the next public port is the least unused one |
| `RegistryRuns.PinnedIsGone` | internal/services/manager.go:266-362 | a host port in use without an owner is never published, freed or handed out by any later run |
| `RegistryRuns.ReservedPortIsGone` | internal/services/manager.go:357-362 | a port reserved while free is never published, freed or handed out by any later run |
| `RegistryRuns.AllocateThenRemoveIff` | internal/services/manager.go:318-355 | after a successful allocation, removal restores used sets and registry iff names are distinct and the app was unregistered |
| `RegistryRuns.LostPortsExactly` | internal/services/manager.go:318-355 | after any allocation, complete or cut short, and a removal, the host ports lost are exactly those of replaced entries and those handed out for a name used again |
| `RegistryRuns.PinnedExactly` | internal/services/manager.go:266-362 | each of the five operations takes out of circulation exactly the host ports of replaced and removed entries, of names used again, of failed reconciles and restores, and reserved ones |
| `RegistryRuns.RemovedListenerLosesItsPort` | internal/services/manager.go:675-687 | a listener reconciled away: no later run publishes, frees or hands out its host port |
| `RegistryRuns.ReplacedPortIsLost` | internal/services/manager.go:343-346 | the port of a replaced entry is never published, freed or handed out by any later run |
| `RegistryRuns.LeftoverLosesAPort` | internal/app/app_manager.go:509-517 | what an allocation that was not cleaned up left registered loses its port to the next allocation for the app |
| `RegistryRuns.SecondAllocationLosesAPort` | internal/services/manager.go:318-355 | on a fresh manager two allocations for one app and a removal leave port 15000 used for good |
| `RegistryRuns.RepeatedNameLosesAPort` | internal/services/manager.go:318-355 | on a fresh manager a listener name given twice leaves a host and a public port used for good after removal |
| `RegistryRuns.ReconcileReport` | internal/services/manager.go:599-695 | for distinct names: exactly the requested names, each endpoint with its listener's configuration, retained ones on their old ports; Added, GuestPortChanged and proxy restarts list exactly the differences, each name once, as stored; a proxy is restarted iff flow, protocol or the list of middleware names differs |
| `RegistryRuns.RetainIsRemake` | internal/services/manager.go:614-642 | a retained endpoint is what its listener would get anew on the same ports (used by the report) |
| `ServiceManagers.MiddlewareEqual` | internal/services/manager.go:697-708 | the loop compares middleware by name, position by position |
| `ServiceManagers.ServiceManager.constructor` | internal/services/manager.go:45-58 | starts with ranges 15000-25000 and 35000-45000 and nothing registered |
| `ServiceManagers.ServiceManager.AllocateForApp` | internal/services/manager.go:318-355 | implements allocation; returns all endpoints or none |
| `ServiceManagers.ServiceManager.ReserveHostPort` | internal/services/manager.go:358-362 | succeeds iff the port is free; the port is then pinned |
| `ServiceManagers.ServiceManager.RemoveApp` | internal/services/manager.go:711-723 | implements removal, whatever order the map is walked in |
| `ServiceManagers.ServiceManager.RestoreFromPodman` | internal/services/manager.go:266-315 | implements restore; returns the rebuilt endpoints, each on the host port the container publishes; a failed or empty restore leaves the app unregistered |
| `ServiceManagers.ServiceManager.Reconcile` | internal/services/manager.go:599-695 | implements reconcile; Removed and Endpoints list exactly the right entries once; the container flag is set iff something was added, removed or moved; a failure changes no entry |
| `Install.InstallWithRetries` | internal/app/app_manager.go:503-574 | attempts are repeated exactly on port conflicts, five at most; installed iff the last answer was success, exhausted iff five conflicts, out of ports iff an attempt found none; only conflicting ports are reserved, and named ones are in use afterwards; reserved ports are pinned and never published; for distinct names and a new app the used ports grow by exactly the reserved and the published ones |
| `Install.TryInstall` | internal/app/app_manager.go:508-573 | one attempt: asks the runtime iff ports suffice, publishes what it allocated on success, and is cleaned up on every failure, with conflicting host ports out of circulation |
| `Install.ReserveConflicts` | internal/app/app_manager.go:533-539 | the conflicting port, or every port of the attempt if none was named, ends up used; nothing else is reserved, and what is reserved is pinned |
| `ControlStore.RevisionCountsCommits` | internal/persistence/sqlite_control_store.go:514-579 | in every run the revision equals the number of commits, and cached revision and checksum equal the meta row |
| `ControlStore.AcknowledgedExactly` | internal/persistence/sqlite_control_store.go:813-918 | exactly which calls report success, by operation: commits, a cached initialisation, an empty update; never without a name or on a locked or read-only store |
| `ControlStore.MutationKeepsAgreement` | internal/persistence/sqlite_control_store.go:581-690 | writing a change to the tables and to the cache gives the same meaning |
| `ControlStore.CommittedRunsAgree` | internal/persistence/sqlite_control_store.go:328-432 | if nothing was undone since the last lock the cache is the decoded tables |
| `ControlStore.AgreementKeptIff` | internal/persistence/sqlite_control_store.go:514-579 | an agreeing cache stops agreeing exactly when a write that changes something is undone |
| `ControlStore.RelockRestoresAgreement` | internal/persistence/sqlite_control_store.go:283-326 | after any run, lock then unlock makes the cache agree; if nothing was undone since the last lock it changes nothing |
| `ControlStore.UnlockTakesTheMount` | internal/persistence/sqlite_control_store.go:295-326 | an unlock is writable iff its mount is; on a read-only mount no calls change anything before the next lock |
| `ControlStore.StalenessReadsBack` | internal/persistence/sqlite_control_store.go:600-660 | a committed staleness update reads back after lock and unlock field by field, with the same instants in whatever zone given, and nothing else changed |
| `ControlStore.CommitChecksumIff` | internal/persistence/sqlite_control_store.go:545-579 | a commit stores a checksum of its tables iff the cache it digested agrees with them |
| `ControlStore.ChecksumDescribesIff` | internal/persistence/sqlite_control_store.go:545-579 | after any run the stored checksum describes the tables iff the cache agreed with them right after the last commit |
| `ControlStore.CleanCommitsAreDigested` | internal/persistence/sqlite_control_store.go:545-579 | it does if nothing committed while an undone write was in the cache |
| `ControlStore.UndoneHashIsDigested` | internal/persistence/sqlite_control_store.go:545-579 | a rolled-back hash, a commit, a lock and an unlock: the cache agrees, the stored checksum is wrong |
| `ControlStore.CommitIsFaithfulIff` | internal/persistence/sqlite_control_store.go:581-598 | a committed write stores what was meant iff the cached auth field it rewrites is the stored one |
| `ControlStore.UndoneHashIsStoredLater` | internal/persistence/sqlite_control_store.go:567-598 | a rolled-back hash is stored by the next committed initialisation |
| `ControlStore.UndoneInitialisationIsAcknowledged` | internal/persistence/sqlite_control_store.go:813-823 | after a rolled-back initialisation the next one is acknowledged, and the tables are still uninitialised at revision 0 |
| `ControlStore.InitialisationIsStoredIff` | internal/persistence/sqlite_control_store.go:813-823 | an acknowledged initialisation has stored its flag iff the cached flag, when set, was stored already |
| `ControlStore.AcknowledgedInitialisationIff` | internal/persistence/sqlite_control_store.go:581-598 | after any run, an acknowledged initialisation has stored its flag iff no rolled-back one is open, that is, followed by neither a lock nor a committed auth write |
| `ControlStore.EveryHistoryExplains` | internal/persistence/sqlite_control_store.go:514-598 | in every run the cached and stored initialised flags differ exactly while a rolled-back initialisation is open, and the hashes only while a rolled-back hash is |
| `ControlStore.TablesReplayIff` | internal/persistence/sqlite_control_store.go:514-690 | throughout a run the tables are the replay of the committed operations iff every committed auth write rewrote its companion field with the stored value |
| `ControlStore.TablesReplayCommits` | internal/persistence/sqlite_control_store.go:514-690 | that is so whenever no auth write commits while a rolled-back write of the other auth field is open |
| `ControlStore.SqliteControlStore.constructor` | internal/persistence/sqlite_control_store.go:103-131 | a new store is locked and empty |
| `ControlStore.SqliteControlStore.Lock` | internal/persistence/sqlite_control_store.go:283-293 | drops the cache, keeps the tables |
| `ControlStore.SqliteControlStore.Unlock` | internal/persistence/sqlite_control_store.go:295-326 | succeeds iff already loaded or key, volume and rows are there; loaded iff it reports success, and then the cache is the decoded tables |
| `ControlStore.SqliteControlStore.LoadApps` | internal/persistence/sqlite_control_store.go:409-430 | the rows read are the rows stored |
| `ControlStore.SqliteControlStore.WithWrite` | internal/persistence/sqlite_control_store.go:514-579 | succeeds iff the transaction commits; any failure leaves the tables alone |
| `ControlStore.SqliteControlStore.SetInitialized` | internal/persistence/sqlite_control_store.go:813-823 | implements the operation; succeeds iff the store is writable and ready and the flag is cached or the transaction commits |
| `ControlStore.SqliteControlStore.SavePasswordHash` | internal/persistence/sqlite_control_store.go:834-841 | implements the operation; succeeds iff it commits |
| `ControlStore.SqliteControlStore.UpdateStaleness` | internal/persistence/sqlite_control_store.go:859-866 | implements the operation; succeeds iff the store is writable and ready and the update is empty or commits |
| `ControlStore.SqliteControlStore.SaveConfig` | internal/persistence/sqlite_control_store.go:882-890 | implements the operation; succeeds iff it commits |
| `ControlStore.SqliteControlStore.UpsertApp` | internal/persistence/sqlite_control_store.go:908-918 | implements the operation; succeeds iff it commits, and never for an empty name |
| `Volumes.RepairFlagMeansOpenFailure` | internal/persistence/file_volume_manager.go:522-555 | over any series of records the generation counts them and the repair flag says that some failure has not been settled since |
| `Volumes.FileVolumeManager.Record` | internal/persistence/file_volume_manager.go:522-555 | the file holds the next entry unless the write was lost; success iff it is durable |
| `Volumes.FileVolumeManager.Attach` | internal/persistence/file_volume_manager.go:319-408 | at every intermediate state the mount has moved only if the journal already wants it; exactly when it mounts, marks, succeeds or finds the key locked; never succeeds for a follower, nor for the control volume as leader without kernel leadership; a failed launch is journalled as an error needing repair; success means mounted, marked, journalled and nothing to repair |
| `Volumes.FileVolumeManager.Detach` | internal/persistence/file_volume_manager.go:410-440 | the same towards unmounted: exactly when the mount goes and when success is reported; a failed unmount is journalled as an error needing repair |
| `Volumes.FileVolumeManager.ReconcileVolume` | internal/persistence/file_volume_manager.go:588-636 | exactly when it succeeds; never changes the desired state; success with the mount following it clears the repair flag; success without that names its reason; an unknown role is journalled as an error and not mounted; a settled volume is not touched |
| `Volumes.FileVolumeManager.ReconcileTwice` | internal/persistence/file_volume_manager.go:588-636 | after a converged success a second reconcile writes nothing, whatever the environment |
| `Volumes.FileVolumeManager.ReconcileAll` | internal/persistence/file_volume_manager.go:649-668 | all desired states kept; on success nothing that follows its journal needs repair, and with key and leadership every volume it can act on follows its journal |
| `LockProtocol.Module.constructor` | internal/persistence/service.go:151-155 | a module starts locked, with an unloaded store, and says so |
| `LockProtocol.Module.DetachIfMounted` | internal/persistence/service.go:499-528 | the mount goes iff it is marked and the detach works; a stale marker of an absent mount is removed; exactly when success is reported |
| `LockProtocol.Module.AttachControl` | internal/persistence/service.go:200-221 | succeeds iff the handle is known and the attach does, which it never does for a follower; success means mounted and marked |
| `LockProtocol.Module.AttachBootstrap` | internal/persistence/service.go:223-240 | without leave to wait it succeeds iff the attach does; success then means bootstrap is mounted and marked |
| `LockProtocol.Module.SetLockState` | internal/persistence/service.go:311-349 | exactly when it succeeds; success sets the flag with store and volumes to match; failure keeps the flag and never leaves a newly loaded store; which volumes a failed unlock leaves mounted, stage by stage; exactly when a loaded store loses its volume and when an unlocked flag loses its store |
| `LockProtocol.Module.UnmarkedMountSurvivesLock` | internal/persistence/service.go:499-528 | an attach that mounts but cannot mark, then a successful lock: locked, with the control volume mounted |
| `LockProtocol.Module.FollowerCannotUnlock` | internal/persistence/file_volume_manager.go:366-397 | a follower's unlock fails with the control volume mounted, and a successful lock leaves it mounted |
| `LockProtocol.Module.SecondUnlockPullsTheVolume` | internal/persistence/service.go:332-338 | unlocking again with bootstrap failing: still unlocked and loaded, with the control volume gone |
| `LockProtocol.Module.FailedLockUnloadsTheStore` | internal/persistence/service.go:322-331 | a lock whose unmount fails: still unlocked, with the store unloaded |
| `LockProtocol.Module.HandleRecordLockState` | internal/persistence/commands.go:81-91 | succeeds iff the state can be set; an event is published iff it was |
| `LockProtocol.Module.ExportCallback` | internal/persistence/service.go:394-395 | may only run on a locked, unloaded store, for a full export with bootstrap unmounted; every run is recorded with its result |
| `LockProtocol.Module.RunExportWithLock` | internal/persistence/service.go:351-421 | the callback runs once iff the module is or can be locked and, for a full export, bootstrap is or can be unmounted; success iff it ran, succeeded, and lock or bootstrap was restored; flag and events exactly; success leaves flag and bootstrap as they were |
| `LockProtocol.Module.Serve` | internal/persistence/service.go:311-421 | over every run of lock, unlock, export and write with any failures: locked means unloaded, and the last event equals the flag |
| `CommitFeed.NoRevisionTwice` | internal/persistence/service.go:578-593 | in every interleaving accepted revisions strictly increase and exist |
| `CommitFeed.OfferedCommitsAreCovered` | internal/persistence/service.go:565-593 | a commit whose callback offered a revision is covered by the announced revision for ever after |
| `CommitFeed.FollowersNeverCommit` | internal/persistence/guarded_control.go:120-161 | from a follower with no write in flight, locked or not, no run without a role change lets a write through, adds a commit callback or brings up a commit of its own; the revision is the one last read by an unlock |
| `CommitFeed.LeadersOnlyCallBack` | internal/persistence/service.go:624-633 | over any run of a leader every task was there before or comes from a call: leaders do not poll |
| `CommitFeed.PollCovers` | internal/persistence/service.go:624-633 | a poll of another node with an unlocked store covers its revision |
| `CommitFeed.SuccessIsAnnounced` | internal/persistence/guarded_control.go:120-161 | every successful write, changing or not, has a callback that covers the revision it left |
| `CommitFeed.GuardedControlStore.PublishControlCommit` | internal/persistence/service.go:578-593 | a revision is announced iff it is higher than every one before |
| `CommitFeed.GuardedControlStore.OnControlCommit` | internal/persistence/service.go:565-576 | an unlocked store's own revision is announced iff it is higher than every one before; nothing else is |
| `CommitFeed.GuardedControlStore.PollRevision` | internal/persistence/service.go:624-633 | the same for an unlocked store of a node that is not leader; otherwise nothing is announced |
| `CommitFeed.GuardedControlStore.Mutate` | internal/persistence/guarded_control.go:88-161 | a follower's call leaves store and announcements alone; done iff the store acknowledges; then exactly the store's revision is offered, and otherwise nothing |
| `Vault.EveryRunIsConsistent` | internal/crypt/manager.go:53-220 | in every run the in-memory key is absent or the stored one |
| `Vault.KeyIsForever` | internal/crypt/manager.go:111-220 | over all runs and restarts that can stat the file, stored and in-memory key are the key made at setup |
| `Vault.StatFailureLosesTheKey` | internal/crypt/manager.go:61-66 | a failed stat at restart lets a second setup replace the key |
| `Vault.KeyReplacedIff` | internal/crypt/manager.go:111-161 | a call replaces the key iff it is a granted setup of an uninitialised process over an existing file |
| `Vault.StoredSecretsAreTheLatest` | internal/crypt/manager.go:244-483 | the stored secrets are those of the last successful setup, rewrap and recovery generation |
| `Vault.HistoryTells` | internal/crypt/manager.go:53-220 | whether a process knows of the key and holds it open follows from its setups, unlocks, locks and restarts |
| `Vault.UnlockExactly` | internal/crypt/manager.go:163-210 | after any run exactly the latest password unlocks, in a process that knows of the key file |
| `Vault.RecoveryUnlockExactly` | internal/crypt/manager.go:499-538 | after any run exactly words joining to the latest mnemonic unlock |
| `Vault.SetupExactly` | internal/crypt/manager.go:111-161 | after any run setup succeeds iff the process knows of no key and entropy and writes are granted |
| `Vault.RewrapExactly` | internal/crypt/manager.go:244-349 | after any run the password changes iff the old one is the latest, or the vault is open |
| `Vault.RecoveryGenerationExactly` | internal/crypt/manager.go:354-483 | after any run a recovery key is generated iff the vault is open, or the password is the latest, and there is none yet or force is given |
| `Vault.SecretsAreIndependent` | internal/crypt/manager.go:286-295 | rewrapping keeps recovery unlock as it was, rotating keeps password unlock as it was |
| `Vault.JoinIsInjective` | internal/crypt/manager.go:503-509 | lists of single words with the same mnemonic are equal |
| `Vault.RecoveryTakesExactWords` | internal/crypt/manager.go:499-538 | if the generated words are single words, single words unlock iff they are the generated list |
| `Keyset.JoinWords` | internal/crypt/manager.go:388-394 | the loop joins with single spaces |
| `Keyset.MakeWords` | internal/crypt/manager.go:380-387 | one word of the list per random byte |
| `Keyset.WordsAreSingle` | internal/crypt/manager.go:352 | no word of the list contains a space |
| `Keyset.ZeroBytes` | internal/crypt/manager.go:222-226 | the buffer ends as zeros |
| `Keyset.Manager.constructor` | internal/crypt/manager.go:53-68 | a process start implements the vault's restart |
| `Keyset.Manager.Setup` | internal/crypt/manager.go:111-161 | implements setup, succeeding exactly when the vault does |
| `Keyset.Manager.Unlock` | internal/crypt/manager.go:163-210 | implements unlock |
| `Keyset.Manager.Lock` | internal/crypt/manager.go:212-220 | the key is dropped and its old buffer is all zeros |
| `Keyset.Manager.WithSDEK` | internal/crypt/manager.go:87-105 | the callback runs once iff the vault is open, and is shown the key; its result is returned; whatever it does to its copy the key stays, and the copy ends as zeros |
| `Keyset.Manager.Rewrap` | internal/crypt/manager.go:244-296 | implements rewrap |
| `Keyset.Manager.RewrapUnlocked` | internal/crypt/manager.go:300-349 | implements rewrap of an open vault |
| `Keyset.Manager.GenerateRecoveryKey` | internal/crypt/manager.go:354-418 | implements recovery generation with 24 words of the list |
| `Keyset.Manager.GenerateRecoveryKeyWithPassword` | internal/crypt/manager.go:421-483 | the same under a password, leaving the vault as locked as it was |
| `Keyset.Manager.UnlockWithRecoveryKey` | internal/crypt/manager.go:499-538 | implements recovery unlock |
| `Keyset.Exercise` | internal/crypt/manager.go:53-538 | any sequence of calls and restarts on the real state is a run of the vault in which every generated recovery key is 24 words of the list |
| `Keyset.LatestWordsAreDrawn` | internal/crypt/manager.go:380-394 | then the latest recovery key is 24 words of the list |
| `Keyset.RecoveryIsWordForWord` | internal/crypt/manager.go:499-538 | then single words unlock iff they are the latest generated list, word for word |
| `Keyset.RecoverAfter` | internal/crypt/manager.go:499-538 | on the real state: after any script, typing single words recovers iff they are the latest generated list |
| `RateLimiter.EveryPacketIsAccountedFor` | internal/mdns/security.go:15-104 | over every run, total = let through and parsed + blocked + limit hits + too large + malformed |
| `RateLimiter.CountersExactly` | internal/mdns/security.go:15-104 | over every run each counter is the number of packets of its own fate, and the total the number of packets |
| `RateLimiter.SweepForgetsExactly` | internal/mdns/security.go:188-199 | a sweep forgets exactly the clients not marked as blocked that were silent for over 15 minutes |
| `RateLimiter.GrantedSumIff` | internal/mdns/protocol.go:162-176 | counting every packet let through, the sum holds iff each of them parses |
| `RateLimiter.UnparsedPacketCountsTwice` | internal/mdns/protocol.go:171-172 | one unparsable packet of 12 bytes gives total 1, let through 1, malformed 1 |
| `RateLimiter.BlockHolds` | internal/mdns/security.go:32-81 | a client that hit a limit is refused until its block ends, whatever runs in between |
| `RateLimiter.OnlyOwnTrafficMatters` | internal/mdns/security.go:15-73 | a client's record depends on its own packets and the sweeps alone |
| `RateLimiter.RateBound` | internal/mdns/security.go:15-81 | on a monotone clock a stretch of granted queries with gaps up to g keeps the promise (per-second limit for g under a second, per-minute limit up to a minute); it is at most one over if it may hold the query that created the record, at most a burst over if it may hold queries on the instant a block ends |
| `RateLimiter.DefaultRates` | internal/mdns/manager.go:17-27 | with the shipped limits: 10 and 100, or 11 and 101, or 20 and 110 |
| `RateLimiter.RateBoundIsReached` | internal/mdns/security.go:32-73 | each of these bounds is reached by some client, the promise included |
| `RateLimiter.VerdictExactly` | internal/mdns/security.go:32-73 | after any run on a monotone clock a query is refused as blocked iff the client's last limit hit is less than a block ago, and hits a limit iff its streak of granted queries, with gaps up to a minute and without the first, is past the per-minute limit, or past the per-second one with a gap under a second |
| `RateLimiter.DefaultBlock` | internal/mdns/manager.go:17-27 | with the shipped limits: refused as blocked iff the last limit hit is less than five minutes ago, and too large iff over 1500 bytes |
| `RateLimiter.SteadyClientIsBlocked` | internal/mdns/security.go:48-70 | a client asking in step with any gap up to a minute is granted its limit and then blocked |
| `RateLimiter.SlowClientIsBlocked` | internal/mdns/security.go:48-70 | with the shipped limits, one query every 59 seconds: 101 are granted and the next is a limit hit |
| `RateLimiter.Manager.constructor` | internal/mdns/manager.go:17-57 | starts with no clients and zero counters |
| `RateLimiter.Manager.IsRateLimited` | internal/mdns/security.go:15-81 | implements the per-client automaton and its counters |
| `RateLimiter.Manager.ValidatePacket` | internal/mdns/security.go:84-104 | passes exactly well-sized packets the automaton accepts, and updates the counters of the check |
| `RateLimiter.Manager.HandleQuery` | internal/mdns/protocol.go:162-176 | implements the step: validation, then one more malformed packet if it does not parse |
| `RateLimiter.Manager.PerformSecurityCleanup` | internal/mdns/security.go:188-199 | forgets exactly the unblocked clients silent for 15 minutes |
| `NameConflict.StepKeepsInv` | internal/mdns/conflict.go:88-214 | every step of a handler or resolver keeps the protocol invariant |
| `NameConflict.EveryInterleavingSettles` | internal/mdns/conflict.go:88-214 | in every interleaving: at most one rename, from base to base-machineID, and at most two resolvers started |
| `NameConflict.RenameIsFinal` | internal/mdns/conflict.go:169-214 | the new name stays, and a conflict raised under it is never cleared |
| `NameConflict.RaisedConflictHasAResolver` | internal/mdns/conflict.go:125-140 | a raised conflict under the base name always has a resolver pending or about to start |
| `NameConflict.TwoResolversCanHappen` | internal/mdns/conflict.go:88-141 | an interleaving that starts two resolvers |
| `NameConflict.SelfResponsesRaiseNothing` | internal/mdns/conflict.go:97-101 | a run whose reads are all of our own responses raises nothing and counts no source |
| `NameConflict.OtherNamesRaiseNothing` | internal/mdns/conflict.go:90-95 | nor does a run whose answers are all about other names |
| `NameConflict.SourcesCountReports` | internal/mdns/conflict.go:108-122 | over every interleaving a source is counted once per report since the last rename |
| `NameConflict.AttemptsCountResolvers` | internal/mdns/conflict.go:169-190 | over every interleaving the attempts are the resolvers that ran |
| `Routing.MatchesRemotePort` | internal/services/manager.go:430-445 | the loop decides whether an endpoint takes a port |
| `Routing.ResolveListener` | internal/services/manager.go:419-428 | returns a matching listener iff there is one |
| `Routing.ResolveByRemotePort` | internal/services/manager.go:405-416 | returns an endpoint that takes the port iff there is one |
| `Routing.OneAnswer` | internal/services/manager.go:419-428 | unique names make the answer independent of map order |
| `Routing.MatchesExactly` | internal/services/manager.go:430-445 | which ports an endpoint takes, with the ACME fallback port 5002 wherever it takes 80 |
| `Routing.NormalizeForgets` | internal/server/gin_server.go:175-176 | ASCII case and one trailing dot do not matter |
| `Routing.HostNamesListener` | internal/server/gin_server.go:200-211 | a host under the domain names the listener in its first label, whatever follows before the domain |
| `Routing.HostNamesForResolver` | internal/server/gin_server.go:198-213 | for the resolver: the first label, under the domain if there is one |
| `Routing.RemoteResolver.UpdateConfig` | internal/server/gin_server.go:127-138 | sets portal and domain, borrowing the portal's domain if none is given |
| `Routing.RemoteResolver.Resolve` | internal/server/gin_server.go:175-246 | the portal, then the named listener, then any endpoint that takes the port; TLS goes to a running mux unless the endpoint takes TLS itself or the port is 80, everything else to the endpoint's public port; no target iff nothing takes the port |
| `Routing.TlsMux.UpdateConfig` | internal/services/tlsmux.go:49-58 | sets portal, domain and portal port |
| `Routing.TlsMux.ResolveUpstream` | internal/services/tlsmux.go:217-243 | the public port of the named listener, the portal port, or 0 |
| `Routing.RoutersAgree` | internal/services/tlsmux.go:217-243 | for TLS on 443 the mux reaches the endpoint the resolver picked iff a domain is configured |
| `Routing.MuxRefusesAMatchedHost` | internal/services/tlsmux.go:217-243 | one app, a portal and no domain: the resolver hands the listener's host to the mux, which refuses it |
| `Routing.DomainsAgreeIff` | internal/server/gin_server.go:129-136 | both routers work with the same domain iff one is configured or the portal has none to borrow |

## Left out

- Proxies, sockets, TLS handshakes, HTTP handlers, Nexus, ACME and the user interface: plumbing around the modelled decisions.
- The query slots, per-interface counters and DNS message checks around the limiter: they touch neither its records nor its counters.
- Podman, gocryptfs, fusermount and mountinfo parsing: only their success or failure matters here.
- Argon2, AES-GCM, base64, JSON and SQLite: replaced by ideal functions.
- Container ids, publish notifications and backend health checks of the service manager: they do not touch ports or registry.
- The test-only bypass of real mounts, `EnsureVolume` and the creation of volume metadata: an attach either gets a key or does not.
- Stacked mounts: a volume is mounted or not, although unlocking attaches bootstrap without looking for an existing mount.
- Control stores without a lock interface, absent volume managers and their "not implemented" errors: the shipped module has neither.
- Concurrent calls to `setLockState`: its properties are stated for calls that run one after another, as only the flag is under the mutex.
- Delivery order on the event bus: acceptance of a revision is under the mutex, publication is not.
- 64-bit wrap-around of counters and revisions: they are unbounded here.
- Simple readers (`IsLocked`, `HasRecoveryKey`, `ListApps`, `GetByApp` and the like), the health tracker and the leadership registry: they would only add easy members.
- Routing.RoutersAgree: covers connections the resolver matched by host name; its fallback by port alone has no counterpart in the mux.
- NameConflict.EveryInterleavingSettles: host names are compared with ASCII case folding only, and a start-up probe may resolve a conflict although the shipped probe never reports one.
