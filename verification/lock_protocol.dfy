/** Locking the persistence module: control store, volumes, lock flag and lock events kept in step. */
module LockProtocol {
  import opened Common
  import CS = ControlStore
  import V = Volumes

  const CONTROL := "control"
  const BOOTSTRAP := "bootstrap"

  datatype Request =
    | RecordLockState(locked: bool)
    | RunExport(includeBootstrap: bool)
    | WriteStore(hash: string)
    | ShiftEnvironment

  /** Where an unlock can fail. */
  datatype Stage = ControlAttach | BootstrapAttach | StoreUnlock

  /** What a best-effort detach meets: a readable mount point, a stale marker that can be removed, a detach. */
  datatype DropEnv = DropEnv(readable: bool, removable: bool, detach: V.DetachEnv) {
    /** A marked mount is taken away. */
    predicate Drops() {
      readable && detach.Drops()
    }
  }

  /** What a change of the lock state meets. */
  datatype LockEnv = LockEnv(follower: bool, control: V.AttachEnv, bootstrap: V.AttachEnv, opening: CS.Opening,
                             dropControl: DropEnv, dropBootstrap: DropEnv)

  /** What an export meets: its own lock, a look at bootstrap and its detach, the callback, and the way back. */
  datatype ExportEnv = ExportEnv(lock: LockEnv, readable: bool, detach: V.DetachEnv, callback: bool,
                                 unlock: LockEnv, attach: V.AttachEnv)

  // Everything works.
  const ATTACHES := V.AttachEnv(false, V.Durable, true, true, true, V.Durable)
  const DROPS := DropEnv(true, true, V.DetachEnv(V.Durable, true, V.Durable))
  const WORKS := LockEnv(false, ATTACHES, ATTACHES, CS.Opening(true, false, true), DROPS, DROPS)

  class Module {
    const store: CS.SqliteControlStore
    const volumes: V.FileVolumeManager
    const controlKnown: bool    // the control volume has a handle
    const bootstrapKnown: bool
    var lockState: bool
    var published: seq<bool>    // lock events, oldest first
    ghost var exports: seq<bool>  // results of the export callbacks that ran, oldest first

    ghost predicate Valid()
      reads this, store
    {
      && store.Valid()
      && (lockState ==> !store.loaded)
      && published != [] && published[|published| - 1] == lockState
    }

    constructor (store: CS.SqliteControlStore, volumes: V.FileVolumeManager, controlKnown: bool, bootstrapKnown: bool)
      requires store.Valid()
      modifies store
      ensures this.store == store && this.volumes == volumes && Valid() && lockState
      ensures this.controlKnown == controlKnown && this.bootstrapKnown == bootstrapKnown
      ensures published == [true] && exports == []
    {
      this.store, this.volumes := store, volumes;
      this.controlKnown, this.bootstrapKnown := controlKnown, bootstrapKnown;
      lockState := true;
      published := [true];
      exports := [];
      new;
      store.Lock();
    }

    /** The volume ends up as a lock should leave it. */
    predicate DropSucceeds(id: string, known: bool, env: DropEnv)
      reads volumes
    {
      known ==>
        && env.readable
        && if id !in volumes.mounts then env.removable
           else id in volumes.inner ==> env.Drops() && env.detach.last.Durable?
    }

    /** Best effort: an absent mount only loses its stale marker, and a mount without a marker is left in place. */
    method DetachIfMounted(id: string, known: bool, env: DropEnv) returns (ok: bool)
      modifies volumes
      ensures volumes.keyUnlocked == old(volumes.keyUnlocked) && volumes.kernelLeader == old(volumes.kernelLeader)
      ensures forall k :: k != id ==> (k in volumes.mounts <==> old(k in volumes.mounts))
      ensures volumes.inner == old(volumes.inner) && volumes.entries == old(volumes.entries)
      ensures ok <==> old(DropSucceeds(id, known, env))
      ensures ok && known && old(id !in volumes.mounts) ==> env.removable && id !in volumes.outer
      ensures forall k :: k != id || (known && id in old(volumes.mounts)) ==> (k in volumes.outer <==> old(k in volumes.outer))
      ensures id in volumes.mounts <==> old(id in volumes.mounts) && !(known && id in volumes.inner && env.Drops())
    {
      if !known {
        return true;
      }
      if !env.readable {
        return false;
      }
      if id !in volumes.mounts {
        if env.removable {
          volumes.outer := volumes.outer - {id};
        }
        return env.removable;
      }
      if !volumes.MarkerVisible(id) {
        return true;
      }
      ghost var trail;
      ok, trail := volumes.Detach(id, env.detach);
      forall k | k != id ensures k in volumes.mounts <==> old(k in volumes.mounts) {
        assert volumes.At(k) == old(volumes.At(k));
      }
    }

    function ControlRole(env: LockEnv): V.Role {
      if env.follower then V.Follower else V.Leader
    }

    /** A volume other than this one is where it was, and nothing but this volume moved. */
    twostate predicate OthersStay(id: string)
      reads volumes
    {
      && (forall k :: k != id ==> (k in volumes.mounts <==> old(k in volumes.mounts)) && (k in volumes.inner <==> old(k in volumes.inner)))
      && (forall k :: k in volumes.entries <==> old(k in volumes.entries))
      && volumes.keyUnlocked == old(volumes.keyUnlocked) && volumes.kernelLeader == old(volumes.kernelLeader)
    }

    method AttachKnown(id: string, role: V.Role, env: V.AttachEnv) returns (r: V.AttachResult)
      modifies volumes
      ensures OthersStay(id)
      ensures id in volumes.mounts <==> old(id in volumes.mounts || volumes.WillMount(id, role, env))
      ensures id in volumes.inner <==> old(id in volumes.inner || volumes.WillMark(id, role, env))
      ensures r.Attached? <==> old(volumes.WillAttach(id, role, env))
      ensures r.KeyLocked? ==> !old(volumes.keyUnlocked)
    {
      ghost var trail;
      r, trail := volumes.Attach(id, role, env);
      forall k | k != id ensures k in volumes.mounts <==> old(k in volumes.mounts) {
        assert volumes.At(k) == old(volumes.At(k));
      }
    }

    /** Success is out of reach for a follower: its read-only mount refuses the marker. */
    method AttachControl(env: LockEnv) returns (ok: bool)
      modifies volumes
      ensures OthersStay(CONTROL)
      ensures ok <==> controlKnown && old(volumes.WillAttach(CONTROL, ControlRole(env), env.control))
      ensures controlKnown ==>
                && (CONTROL in volumes.mounts <==> old(CONTROL in volumes.mounts || volumes.WillMount(CONTROL, ControlRole(env), env.control)))
                && (CONTROL in volumes.inner <==> old(CONTROL in volumes.inner || volumes.WillMark(CONTROL, ControlRole(env), env.control)))
      ensures !controlKnown ==> volumes.mounts == old(volumes.mounts)
      ensures ok ==> CONTROL in volumes.mounts && CONTROL in volumes.inner && !env.follower
    {
      if !controlKnown {
        return false;
      }
      var r := AttachKnown(CONTROL, ControlRole(env), env.control);
      ok := r.Attached?;
    }

    method AttachBootstrap(allowPending: bool, env: V.AttachEnv) returns (ok: bool)
      modifies volumes
      ensures OthersStay(BOOTSTRAP)
      ensures !allowPending ==> (ok <==> (bootstrapKnown ==> old(volumes.WillAttach(BOOTSTRAP, V.Leader, env))))
      ensures ok && bootstrapKnown ==> (BOOTSTRAP in volumes.mounts && BOOTSTRAP in volumes.inner) || (allowPending && !volumes.keyUnlocked)
      ensures old(BOOTSTRAP in volumes.mounts) ==> BOOTSTRAP in volumes.mounts
    {
      if !bootstrapKnown {
        return true;
      }
      var r := AttachKnown(BOOTSTRAP, V.Leader, env);
      ok := r.Attached? || (r.KeyLocked? && allowPending);
    }

    /** Where an unlock in this environment stops. */
    ghost function FailsAt(env: LockEnv): Option<Stage>
      reads store, volumes
    {
      if !controlKnown || !volumes.WillAttach(CONTROL, ControlRole(env), env.control) then Some(ControlAttach)
      else if bootstrapKnown && !volumes.WillAttach(BOOTSTRAP, V.Leader, env.bootstrap) then Some(BootstrapAttach)
      else if !store.loaded && !(env.opening.keyAndVolume && env.opening.readable) then Some(StoreUnlock)
      else None
    }

    /** Which outcome a change of the lock state has, for each environment. */
    ghost predicate Succeeds(locked: bool, env: LockEnv)
      reads store, volumes
    {
      if locked then DropSucceeds(CONTROL, controlKnown, env.dropControl) else FailsAt(env).None?
    }

    /** A loaded store has its volume. */
    ghost predicate Backed()
      reads store, volumes
    {
      store.loaded ==> CONTROL in volumes.mounts
    }

    /** Success means the flag is what was asked for and store and volumes agree with it; failure leaves the flag
        alone and never a newly loaded store behind. An unlock that fails after attaching unmounts what it attached,
        as far as its detaches work. An unlocked flag loses its store exactly when a lock fails, and a loaded store
        its volume exactly when a repeated unlock gives up on bootstrap. */
    method SetLockState(locked: bool, env: LockEnv) returns (ok: bool)
      requires Valid()
      modifies this`lockState, store, volumes
      ensures store.Valid() && (lockState ==> !store.loaded)
      ensures ok <==> old(Succeeds(locked, env))
      ensures lockState == if ok then locked else old(lockState)
      ensures store.loaded <==> !locked && (ok || old(store.loaded))
      ensures volumes.keyUnlocked == old(volumes.keyUnlocked) && volumes.kernelLeader == old(volumes.kernelLeader)
      ensures forall k :: k in volumes.entries <==> old(k in volumes.entries)
      ensures locked ==> volumes.inner == old(volumes.inner)
      ensures locked ==>
                (CONTROL in volumes.mounts <==>
                 old(CONTROL in volumes.mounts) && !(controlKnown && old(CONTROL in volumes.inner) && env.dropControl.Drops()))
      ensures locked ==> (BOOTSTRAP in volumes.mounts <==> old(BOOTSTRAP in volumes.mounts))
      ensures ok && locked && controlKnown ==> (CONTROL in volumes.mounts <==> old(CONTROL in volumes.mounts && CONTROL !in volumes.inner))
      ensures ok && !locked ==> CONTROL in volumes.mounts && (bootstrapKnown || old(BOOTSTRAP in volumes.mounts) ==> BOOTSTRAP in volumes.mounts)
      ensures !locked && old(FailsAt(env)) == Some(ControlAttach) && controlKnown ==>
                && (CONTROL in volumes.mounts <==> old(CONTROL in volumes.mounts || volumes.WillMount(CONTROL, ControlRole(env), env.control)))
                && (CONTROL in volumes.inner <==> old(CONTROL in volumes.inner || volumes.WillMark(CONTROL, ControlRole(env), env.control)))
      ensures !locked && old(FailsAt(env)) in {Some(BootstrapAttach), Some(StoreUnlock)} ==>
                (CONTROL in volumes.mounts <==> !env.dropControl.Drops())
      ensures !locked && old(FailsAt(env)) == Some(StoreUnlock) && bootstrapKnown ==>
                (BOOTSTRAP in volumes.mounts <==> !env.dropBootstrap.Drops())
      ensures old(lockState || store.loaded) ==> (lockState || store.loaded <==> !(locked && !ok && !old(lockState)))
      ensures old(Backed()) ==>
                (Backed() <==> !(!locked && old(store.loaded) && old(FailsAt(env)) == Some(BootstrapAttach) && env.dropControl.Drops()))
    {
      if locked {
        store.Lock();
        ok := DetachIfMounted(CONTROL, controlKnown, env.dropControl);
        if ok {
          lockState := true;
        }
        return;
      }
      ok := AttachControl(env);
      if !ok {
        return;
      }
      ok := AttachBootstrap(false, env.bootstrap);
      if !ok {
        var _ := DetachIfMounted(CONTROL, controlKnown, env.dropControl);
        return;
      }
      ok := store.Unlock(env.opening);
      if !ok {
        store.Lock();
        var _ := DetachIfMounted(CONTROL, controlKnown, env.dropControl);
        var _ := DetachIfMounted(BOOTSTRAP, bootstrapKnown, env.dropBootstrap);
        return;
      }
      lockState := false;
    }

    /** An attach that mounts the volume and then fails to mark it, followed by a lock that reports success. */
    method UnmarkedMountSurvivesLock() returns (unlocked: bool, locked: bool)
      requires Valid() && controlKnown && CONTROL in volumes.entries && CONTROL !in volumes.inner
      requires volumes.keyUnlocked && volumes.kernelLeader
      modifies this`lockState, store, volumes
      ensures !unlocked && locked && lockState && CONTROL in volumes.mounts
    {
      unlocked := SetLockState(false, WORKS.(control := ATTACHES.(markers := false)));
      locked := SetLockState(true, WORKS);
    }

    /** A follower's unlock mounts the control volume, fails to mark it, and a lock that reports success leaves it there. */
    method FollowerCannotUnlock() returns (unlocked: bool, locked: bool)
      requires Valid() && controlKnown && CONTROL in volumes.entries && CONTROL !in volumes.inner && volumes.keyUnlocked
      modifies this`lockState, store, volumes
      ensures !unlocked && locked && lockState && CONTROL in volumes.mounts
    {
      unlocked := SetLockState(false, WORKS.(follower := true));
      locked := SetLockState(true, WORKS.(follower := true));
    }

    /** Unlocking an unlocked module, with bootstrap failing, takes the control volume from under the loaded store. */
    method SecondUnlockPullsTheVolume() returns (unlocked: bool)
      requires Valid() && store.loaded && controlKnown && bootstrapKnown && CONTROL in volumes.entries && BOOTSTRAP in volumes.entries
      requires volumes.keyUnlocked && volumes.kernelLeader
      modifies this`lockState, store, volumes
      ensures !unlocked && !lockState && store.loaded && CONTROL !in volumes.mounts
    {
      unlocked := SetLockState(false, WORKS.(bootstrap := ATTACHES.(launched := false)));
    }

    /** A lock whose unmount fails leaves an unloaded store behind a flag that says unlocked. */
    method FailedLockUnloadsTheStore() returns (locked: bool)
      requires Valid() && !lockState && store.loaded && controlKnown && CONTROL in volumes.mounts && CONTROL in volumes.inner
      modifies this`lockState, store, volumes
      ensures !locked && !lockState && !store.loaded && CONTROL in volumes.mounts
    {
      locked := SetLockState(true, WORKS.(dropControl := DROPS.(detach := DROPS.detach.(unmounted := false))));
    }

    method PublishLockState(locked: bool)
      modifies this`published
      ensures published == old(published) + [locked]
    {
      published := published + [locked];
    }

    method HandleRecordLockState(locked: bool, env: LockEnv) returns (ok: bool)
      requires Valid()
      modifies this`lockState, this`published, store, volumes
      ensures Valid() && (ok <==> old(Succeeds(locked, env)))
      ensures lockState == if ok then locked else old(lockState)
      ensures published == if ok then old(published) + [locked] else old(published)
    {
      ok := SetLockState(locked, env);
      if ok {
        PublishLockState(locked);
      }
    }

    /** Archives the volumes. It may only run on a locked store, and for a full export with bootstrap unmounted. */
    method ExportCallback(includeBootstrap: bool, works: bool) returns (ok: bool)
      requires Valid() && lockState && !store.loaded
      requires includeBootstrap && bootstrapKnown ==> BOOTSTRAP !in volumes.mounts
      modifies this`exports
      ensures exports == old(exports) + [ok] && ok == works
    {
      ok := works;
      exports := exports + [ok];
    }

    /** Undoes the export's own lock; after an abort a failure here is only logged. */
    method RestoreUnlock(lockedByExport: bool, env: LockEnv) returns (ok: bool)
      requires Valid() && (lockedByExport ==> lockState)
      modifies this`lockState, this`published, store, volumes
      ensures Valid()
      ensures ok <==> !lockedByExport || old(UnlockWorks(env))
      ensures lockState == if lockedByExport && ok then false else old(lockState)
      ensures !lockedByExport ==> volumes.mounts == old(volumes.mounts)
      ensures lockedByExport && ok && bootstrapKnown ==> BOOTSTRAP in volumes.mounts
      ensures lockedByExport && ok && old(BOOTSTRAP in volumes.mounts) ==> BOOTSTRAP in volumes.mounts
      ensures published == if lockedByExport && ok then old(published) + [false] else old(published)
    {
      ok := true;
      if lockedByExport {
        ok := SetLockState(false, env);
        if ok {
          PublishLockState(false);
        }
      }
    }

    /** For a full export bootstrap is or can be unmounted. */
    ghost predicate BootstrapLeaves(includeBootstrap: bool, env: ExportEnv)
      reads volumes
    {
      includeBootstrap && bootstrapKnown ==>
        env.readable && (BOOTSTRAP in volumes.mounts ==> env.detach.Drops() && env.detach.last.Durable?)
    }

    /** An unlock of a locked module works. */
    ghost predicate UnlockWorks(env: LockEnv)
      reads volumes
    {
      && controlKnown && volumes.WillAttach(CONTROL, ControlRole(env), env.control)
      && (bootstrapKnown ==> volumes.WillAttach(BOOTSTRAP, V.Leader, env.bootstrap))
      && env.opening.keyAndVolume && env.opening.readable
    }

    /** An export that locked nothing mounts again what it unmounted. */
    ghost predicate BootstrapReturns(includeBootstrap: bool, env: ExportEnv)
      reads volumes
    {
      includeBootstrap && bootstrapKnown && BOOTSTRAP in volumes.mounts ==> volumes.WillAttach(BOOTSTRAP, V.Leader, env.attach)
    }

    /** Runs the callback once if it gets that far; succeeds iff the callback ran, succeeded, and the lock or else bootstrap
        was restored. A success leaves flag and bootstrap as they were, and every change of the flag is announced. */
    method RunExportWithLock(includeBootstrap: bool, env: ExportEnv) returns (ok: bool)
      requires Valid()
      modifies this, store, volumes
      ensures Valid()
      ensures
        var wasLocked := old(lockState);
        var locks := !wasLocked && old(DropSucceeds(CONTROL, controlKnown, env.lock.dropControl));
        var runs := (wasLocked || locks) && old(BootstrapLeaves(includeBootstrap, env));
        var restores := if wasLocked then old(BootstrapReturns(includeBootstrap, env)) else old(UnlockWorks(env.unlock));
        && exports == (if runs then old(exports) + [env.callback] else old(exports))
        && (ok <==> runs && env.callback && restores)
        && lockState == (if locks then !old(UnlockWorks(env.unlock)) else wasLocked)
        && published == (if !locks then old(published)
                         else if old(UnlockWorks(env.unlock)) then old(published) + [true, false]
                         else old(published) + [true])
      ensures ok && old(BOOTSTRAP in volumes.mounts) ==> BOOTSTRAP in volumes.mounts
    {
      var lockedByExport := !lockState;
      if lockedByExport {
        ok := SetLockState(true, env.lock);
        if !ok {
          return;
        }
        PublishLockState(true);
      }
      ok := ExportLocked(includeBootstrap, lockedByExport, env);
    }

    /** The part of an export that runs on a locked module. */
    method ExportLocked(includeBootstrap: bool, lockedByExport: bool, env: ExportEnv) returns (ok: bool)
      requires Valid() && lockState
      modifies this, store, volumes
      ensures Valid()
      ensures exports == if old(BootstrapLeaves(includeBootstrap, env)) then old(exports) + [env.callback] else old(exports)
      ensures ok <==>
                && old(BootstrapLeaves(includeBootstrap, env)) && env.callback
                && if lockedByExport then old(UnlockWorks(env.unlock)) else old(BootstrapReturns(includeBootstrap, env))
      ensures lockState == !(lockedByExport && old(UnlockWorks(env.unlock)))
      ensures published == if lockState then old(published) else old(published) + [false]
      ensures ok && old(BOOTSTRAP in volumes.mounts) ==> BOOTSTRAP in volumes.mounts
    {
      var detached := false;
      if includeBootstrap && bootstrapKnown {
        ok, detached := DetachForExport(env.readable, env.detach);
        if !ok {
          var _ := RestoreUnlock(lockedByExport, env.unlock);
          return false;
        }
      }
      var exported := ExportCallback(includeBootstrap, env.callback);
      if lockedByExport {
        ok := RestoreUnlock(true, env.unlock);
      } else if detached {
        ok := AttachBootstrap(false, env.attach);
      } else {
        ok := true;
      }
      ok := ok && exported;
    }

    method DetachForExport(readable: bool, env: V.DetachEnv) returns (ok: bool, detached: bool)
      requires bootstrapKnown
      modifies volumes
      ensures ok <==> readable && (old(BOOTSTRAP in volumes.mounts) ==> env.Drops() && env.last.Durable?)
      ensures ok ==> BOOTSTRAP !in volumes.mounts
      ensures detached <==> ok && old(BOOTSTRAP in volumes.mounts)
      ensures volumes.keyUnlocked == old(volumes.keyUnlocked) && volumes.kernelLeader == old(volumes.kernelLeader)
      ensures volumes.entries == old(volumes.entries)
    {
      detached := false;
      if !readable {
        return false, false;
      }
      ok := true;
      if BOOTSTRAP in volumes.mounts {
        ghost var trail;
        ok, trail := volumes.Detach(BOOTSTRAP, env);
        detached := ok;
      }
    }

    /** Mounts vanish or appear, keys and leadership come and go. */
    method Environment()
      modifies volumes
    {
      volumes.mounts, volumes.inner, volumes.outer := *, *, *;
      volumes.keyUnlocked, volumes.kernelLeader := *, *;
    }

    /** Any run of lock, unlock, export and write requests, with everything around them failing at will,
        keeps a locked module's store unloaded and its last lock event truthful. */
    method Serve(requests: seq<Request>)
      requires Valid()
      modifies this, store, volumes
      ensures Valid()
    {
      for i := 0 to |requests|
        invariant Valid()
      {
        var ok;
        match requests[i] {
          case RecordLockState(locked) => var env: LockEnv := *; ok := HandleRecordLockState(locked, env);
          case RunExport(full) => var env: ExportEnv := *; ok := RunExportWithLock(full, env);
          case WriteStore(hash) => var fate: CS.Fate := *; ok := store.SavePasswordHash(hash, fate);
          case ShiftEnvironment => Environment();
        }
      }
    }
  }
}
