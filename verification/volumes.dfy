/** Encrypted volumes: real mounts driven through a desired/observed journal that survives restarts. */
module Volumes {
  import opened Common

  datatype Status = Mounted | Unmounted | Pending | Error | OtherStatus(raw: string)

  datatype Role = Leader | Follower | Unknown | OtherRole(raw: string)

  /** The role of an entry nobody attached yet. */
  const NO_ROLE := OtherRole("")

  function ParseRole(r: Role): Role {
    match r
    case Leader => Leader
    case Follower => Follower
    case _ => Unknown
  }

  datatype Journal = Journal(desired: Status, observed: Status, role: Role, errored: bool, generation: nat, needsRepair: bool)

  /** One call to record a volume's state. */
  datatype Entry = Entry(desired: Status, observed: Status, role: Role, cause: bool) {
    predicate Fails() {
      observed.Error? || cause
    }

    predicate Settles() {
      (observed.Mounted? || observed.Unmounted?) && !cause && observed == desired
    }
  }

  /** What recording e after prev writes. */
  function NextEntry(prev: Option<Journal>, e: Entry): Journal {
    var flagged := prev.Some? && prev.value.needsRepair;
    Journal(e.desired, e.observed, e.role, e.cause, 1 + if prev.Some? then prev.value.generation else 0,
            !e.Settles() && (flagged || e.Fails()))
  }

  /** The journal after a series of records. */
  function Written(es: seq<Entry>): Option<Journal> {
    if es == [] then None
    else
      var e := es[|es| - 1];
      Some(NextEntry(Written(es[..|es| - 1]), e))
  }

  /** The i-th record failed and nothing settled since. */
  ghost predicate OpenFailure(es: seq<Entry>, i: int) {
    0 <= i < |es| && es[i].Fails() && forall j :: i < j < |es| ==> !es[j].Settles()
  }

  /** The repair flag says exactly that some failure has not been followed by a settled state. */
  lemma {:induction false} RepairFlagMeansOpenFailure(es: seq<Entry>)
    requires es != []
    ensures Written(es).value.generation == |es|
    ensures Written(es).value.needsRepair <==> exists i :: OpenFailure(es, i)
  {
    var last := |es| - 1;
    var before := es[..last];
    if last > 0 {
      RepairFlagMeansOpenFailure(before);
    }
    if es[last].Fails() {
      assert OpenFailure(es, last);
    } else if es[last].Settles() {
      assert forall i :: OpenFailure(es, i) ==> i < last;
    } else {
      assert forall i :: OpenFailure(es, i) ==> OpenFailure(before, i);
      assert forall i :: OpenFailure(before, i) ==> OpenFailure(es, i);
    }
  }

  datatype AttachResult = Attached | KeyLocked | AttachFailed

  /** What a crash would find: the journal entry and the mount. */
  datatype Snap = Snap(journal: Option<Journal>, mounted: bool)

  /** The mount moved only after the journal said where it should go, and the journal asks for
      nothing but the old state or the target. */
  ghost predicate WriteAhead(before: Snap, now: Snap, target: Status) {
    && (now.mounted != before.mounted ==>
          now.journal.Some? && now.journal.value.desired == target && now.mounted == target.Mounted?)
    && (now.journal == before.journal || (now.journal.Some? && now.journal.value.desired == target))
  }

  ghost predicate AllAhead(before: Snap, trail: set<Snap>, target: Status) {
    forall s :: s in trail ==> WriteAhead(before, s, target)
  }

  /** The real mount is what the journal wants. */
  ghost predicate Follows(s: Snap) {
    s.journal.Some? && (if s.mounted then s.journal.value.desired.Mounted? else s.journal.value.desired.Unmounted?)
  }

  ghost predicate Settled(s: Snap) {
    s.journal.None? || (Follows(s) && !s.journal.value.needsRepair)
  }

  /** What becomes of a journal write: not written, in place without certainty, or durable. */
  datatype Writing = Lost | Unsynced | Durable

  /** What an attach meets on its way; the last write is the final record or the record of a failed launch. */
  datatype AttachEnv = AttachEnv(metadataBroken: bool, first: Writing, launched: bool, appeared: bool, markers: bool, last: Writing) {
    predicate Mounts() {
      first.Durable? && launched && appeared
    }
  }

  datatype DetachEnv = DetachEnv(first: Writing, unmounted: bool, last: Writing) {
    /** The mount is taken away. */
    predicate Drops() {
      first.Durable? && unmounted
    }
  }

  datatype ReconcileEnv = ReconcileEnv(readable: bool, attach: AttachEnv, detach: DetachEnv, repair: Writing)

  /** A journal reconciliation can act on by itself: a known target and a role it can attach with. */
  ghost predicate Actionable(j: Journal) {
    j.desired.Unmounted? || (j.desired.Mounted? && !ParseRole(j.role).Unknown?)
  }

  /** A volume after a reported success, given the journal before and whether nothing made it wait. */
  ghost predicate Converged(was: Journal, now: Snap, able: bool) {
    && now.journal.Some? && now.journal.value.desired == was.desired
    && (Follows(now) ==> !now.journal.value.needsRepair)
    && (able && Actionable(was) ==> Follows(now))
  }

  class FileVolumeManager {
    var entries: map<string, Role>      // known volumes and the role they were attached with
    var journals: map<string, Journal>  // state.json of each volume
    var mounts: set<string>             // volumes present in the mount table
    var inner: set<string>              // volumes whose own filesystem carries the marker
    var outer: set<string>              // mount points whose plain directory carries a marker
    var keyUnlocked: bool
    var kernelLeader: bool

    ghost function At(id: string): Snap
      reads this
    {
      Snap(if id in journals then Some(journals[id]) else None, id in mounts)
    }

    /** The marker a look into the mount point finds. */
    predicate MarkerVisible(id: string)
      reads this
    {
      if id in mounts then id in inner else id in outer
    }

    predicate LeadershipGranted(id: string)
      reads this
    {
      id != "control" || kernelLeader
    }

    /** Only this volume may have changed, and neither the key nor leadership did. */
    twostate predicate OnlyChanged(id: string)
      reads this
    {
      && (forall k :: k != id ==> At(k) == old(At(k)))
      && (forall k :: k != id ==> (k in inner <==> old(k in inner)) && (k in entries <==> old(k in entries)))
      && (forall k :: k != id && k in entries ==> entries[k] == old(entries)[k])
      && (old(id in entries) <==> id in entries)
      && outer == old(outer) && keyUnlocked == old(keyUnlocked) && kernelLeader == old(kernelLeader)
    }

    /** Appends an entry; a failing write may or may not have replaced the file. */
    method Record(id: string, desired: Status, observed: Status, role: Role, cause: bool, fate: Writing) returns (ok: bool)
      modifies this`journals
      ensures journals == if fate.Lost? then old(journals)
                          else old(journals)[id := NextEntry(old(At(id)).journal, Entry(desired, observed, role, cause))]
      ensures ok <==> fate.Durable?
    {
      if fate != Lost {
        var prev := if id in journals then Some(journals[id]) else None;
        journals := journals[id := NextEntry(prev, Entry(desired, observed, role, cause))];
      }
      ok := fate == Durable;
    }

    /** The attach is let through and its key can be unwrapped. */
    predicate Permitted(id: string, role: Role, env: AttachEnv)
      reads this
    {
      id in entries && (role == Leader ==> LeadershipGranted(id)) && !env.metadataBroken
    }

    /** The attach ends with the volume in the mount table. */
    predicate WillMount(id: string, role: Role, env: AttachEnv)
      reads this
    {
      Permitted(id, role, env) && keyUnlocked && env.Mounts()
    }

    /** The attach also writes its marker, which the read-only mount of a follower refuses. */
    predicate WillMark(id: string, role: Role, env: AttachEnv)
      reads this
    {
      WillMount(id, role, env) && role != Follower && env.markers
    }

    predicate WillAttach(id: string, role: Role, env: AttachEnv)
      reads this
    {
      WillMark(id, role, env) && env.last.Durable?
    }

    /** The attach gets as far as starting the mount, which fails. */
    predicate LaunchFails(id: string, role: Role, env: AttachEnv)
      reads this
    {
      Permitted(id, role, env) && keyUnlocked && env.first.Durable? && !env.Mounts()
    }

    /** The journal says that the volume failed on its way there and needs repair. */
    ghost predicate JournalsError(id: string, desired: Status, role: Role)
      reads this
    {
      && id in journals && journals[id].desired == desired && journals[id].observed == Error && journals[id].role == role
      && journals[id].needsRepair && journals[id].errored
    }

    /** Entry, leadership, metadata and volume key; without the data key the last two cannot be had. */
    method CheckAttach(id: string, role: Role, env: AttachEnv) returns (failure: Option<AttachResult>)
      ensures failure.None? <==> Permitted(id, role, env) && keyUnlocked
      ensures failure.Some? ==> failure.value == if Permitted(id, role, env) then KeyLocked else AttachFailed
    {
      if id !in entries || (role == Leader && !LeadershipGranted(id)) || env.metadataBroken {
        return Some(AttachFailed);
      }
      failure := if keyUnlocked then None else Some(KeyLocked);
    }

    method Attach(id: string, role: Role, env: AttachEnv) returns (r: AttachResult, ghost trail: set<Snap>)
      modifies this
      ensures OnlyChanged(id)
      ensures id in mounts <==> old(id in mounts || WillMount(id, role, env))
      ensures id in inner <==> old(id in inner || WillMark(id, role, env))
      ensures r.Attached? <==> old(WillAttach(id, role, env))
      ensures r.Attached? ==> AttachedAs(id, role) && keyUnlocked
      ensures id == "control" && role == Leader && !kernelLeader ==> r.AttachFailed? && At(id) == old(At(id))
      ensures env.metadataBroken || id !in entries ==> r.AttachFailed? && At(id) == old(At(id))
      ensures r.KeyLocked? <==> old(Permitted(id, role, env)) && !keyUnlocked
      ensures r.KeyLocked? ==> At(id) == old(At(id)) && entries == old(entries)
      ensures old(LaunchFails(id, role, env)) && !env.last.Lost? ==> JournalsError(id, Mounted, role)
      ensures AllAhead(old(At(id)), trail, Mounted) && At(id) in trail
    {
      var failure := CheckAttach(id, role, env);
      if failure.Some? {
        return failure.value, {At(id)};
      }
      r, trail := JournalAndMount(id, role, env);
    }

    /** The part of an attach that runs once its key is unwrapped: the journal first, then the mount. */
    method JournalAndMount(id: string, role: Role, env: AttachEnv) returns (r: AttachResult, ghost trail: set<Snap>)
      requires id in entries
      modifies this
      ensures OnlyChanged(id) && !r.KeyLocked?
      ensures id in mounts <==> old(id in mounts) || env.Mounts()
      ensures id in inner <==> old(id in inner) || (env.Mounts() && role != Follower && env.markers)
      ensures r.Attached? <==> env.Mounts() && role != Follower && env.markers && env.last.Durable?
      ensures r.Attached? ==> AttachedAs(id, role)
      ensures env.first.Durable? && !env.Mounts() && !env.last.Lost? ==> JournalsError(id, Mounted, role)
      ensures AllAhead(old(At(id)), trail, Mounted) && At(id) in trail
    {
      trail := {At(id)};
      var ok := Record(id, Mounted, Pending, role, false, env.first);
      trail := trail + {At(id)};
      if !ok {
        return AttachFailed, trail;
      }
      ghost var more;
      r, more := Launch(id, role, env);
      trail := trail + more;
    }

    ghost predicate AttachedAs(id: string, role: Role)
      reads this
    {
      && id in mounts && id in inner && id in entries && entries[id] == role
      && id in journals && journals[id].desired == Mounted && journals[id].observed == Mounted
      && journals[id].role == role && !journals[id].needsRepair && !journals[id].errored
    }

    /** The part of an attach that runs once the journal wants the mount. */
    method Launch(id: string, role: Role, env: AttachEnv) returns (r: AttachResult, ghost trail: set<Snap>)
      requires id in entries && id in journals && journals[id].desired == Mounted
      modifies this
      ensures OnlyChanged(id) && !r.KeyLocked?
      ensures id in mounts <==> old(id in mounts) || (env.launched && env.appeared)
      ensures id in inner <==> old(id in inner) || (env.launched && env.appeared && role != Follower && env.markers)
      ensures r.Attached? <==> env.launched && env.appeared && role != Follower && env.markers && env.last.Durable?
      ensures r.Attached? ==> AttachedAs(id, role)
      ensures !(env.launched && env.appeared) && !env.last.Lost? ==> JournalsError(id, Mounted, role)
      ensures At(id) in trail
      ensures forall s :: s in trail ==> s.journal.Some? && s.journal.value.desired == Mounted && (old(id in mounts) ==> s.mounted)
    {
      trail := {};
      if !env.launched || !env.appeared {
        var _ := Record(id, Mounted, Error, role, true, env.last);
        trail := trail + {At(id)};
        return AttachFailed, trail;
      }
      mounts := mounts + {id};
      trail := trail + {At(id)};
      if role == Follower || !env.markers {
        return AttachFailed, trail;
      }
      inner := inner + {id};
      entries := entries[id := role];
      var ok := Record(id, Mounted, Mounted, role, false, env.last);
      trail := trail + {At(id)};
      r := if ok then Attached else AttachFailed;
    }

    method Detach(id: string, env: DetachEnv) returns (ok: bool, ghost trail: set<Snap>)
      modifies this`journals, this`mounts
      ensures OnlyChanged(id)
      ensures id in mounts <==> old(id in mounts) && !env.Drops()
      ensures ok <==> env.Drops() && env.last.Durable?
      ensures ok ==>
                && id in journals && journals[id].desired == Unmounted && journals[id].observed == Unmounted
                && !journals[id].needsRepair
      ensures env.first.Durable? && !env.unmounted && !env.last.Lost? ==>
                JournalsError(id, Unmounted, if id in entries then entries[id] else Unknown)
      ensures AllAhead(old(At(id)), trail, Unmounted) && At(id) in trail
    {
      trail := {At(id)};
      var role := if id in entries then entries[id] else Unknown;
      ok := Record(id, Unmounted, Pending, role, false, env.first);
      trail := trail + {At(id)};
      if !ok {
        return false, trail;
      }
      if !env.unmounted {
        ok := Record(id, Unmounted, Error, role, true, env.last);
        trail := trail + {At(id)};
        return false, trail;
      }
      mounts := mounts - {id};
      trail := trail + {At(id)};
      ok := Record(id, Unmounted, Unmounted, role, false, env.last);
      trail := trail + {At(id)};
    }

    /** Whether a reconcile reports success, by what it finds and meets. */
    ghost predicate WillReconcile(id: string, env: ReconcileEnv)
      reads this
    {
      && env.readable
      && (id in journals ==>
            var j := journals[id];
            var role := ParseRole(j.role);
            if j.desired.Mounted? && id !in mounts then
              || (j.role.Leader? && !LeadershipGranted(id))
              || (if role.Unknown? || (Permitted(id, role, env.attach) && !keyUnlocked) then env.repair.Durable?
                  else WillAttach(id, role, env.attach))
            else if j.desired.Unmounted? && id in mounts then env.detach.Drops() && env.detach.last.Durable?
            else j.needsRepair && Follows(At(id)) ==> env.repair.Durable?)
    }

    /** Drives the mount towards the journal. It never changes what is wanted; if it reports success the mount
        follows the journal with nothing left to repair, unless it had a reason to wait; and a settled
        volume is left alone. */
    method ReconcileVolume(id: string, env: ReconcileEnv) returns (ok: bool)
      modifies this
      ensures OnlyChanged(id)
      ensures ok <==> old(WillReconcile(id, env))
      ensures old(id in journals) <==> id in journals
      ensures id in journals ==> journals[id].desired == old(journals[id].desired)
      ensures ok && Follows(At(id)) ==> !journals[id].needsRepair
      ensures ok && id in journals && !Follows(At(id)) ==>
                var j := old(journals[id]);
                || (!j.desired.Mounted? && !j.desired.Unmounted?)
                || (&& j.desired.Mounted? && id !in mounts
                    && (!keyUnlocked || ParseRole(j.role).Unknown? || (j.role.Leader? && !LeadershipGranted(id))))
      ensures old(id in journals && journals[id].desired.Mounted? && id !in mounts && journals[id].role !in {Leader, Follower}) ==>
                id !in mounts && (ok ==> JournalsError(id, Mounted, Unknown))
      ensures id == "control" && !kernelLeader ==>
                old(id in journals && journals[id].desired.Mounted? && journals[id].role.Leader? && id !in mounts) ==> At(id) == old(At(id))
      ensures old(Settled(At(id))) ==> At(id) == old(At(id)) && inner == old(inner) && entries == old(entries)
      ensures old(Follows(At(id))) ==>
                && (id in mounts <==> old(id in mounts))
                && journals[id].role in {old(journals[id].role), ParseRole(old(journals[id].role))}
    {
      if !env.readable {
        return false;
      }
      if id !in journals {
        return true;
      }
      var state := journals[id];
      var mounted := id in mounts;
      var role := ParseRole(state.role);
      ghost var trail;
      if state.desired == Mounted && !mounted {
        if state.role == Leader && !LeadershipGranted(id) {
          return true;
        }
        if role == Unknown {
          ok := Record(id, state.desired, Error, role, true, env.repair);
          return;
        }
        var r;
        r, trail := Attach(id, role, env.attach);
        if r.KeyLocked? {
          ok := Record(id, state.desired, Pending, role, true, env.repair);
          return;
        }
        return r.Attached?;
      }
      if state.desired == Unmounted && mounted {
        ok, trail := Detach(id, env.detach);
        return;
      }
      if state.needsRepair && state.desired == Mounted && mounted {
        ok := Record(id, state.desired, Mounted, role, false, env.repair);
        return;
      }
      if state.needsRepair && state.desired == Unmounted && !mounted {
        ok := Record(id, state.desired, Unmounted, role, false, env.repair);
        return;
      }
      ok := true;
    }

    /** Converged means quiet: after a success that left the mount following the journal, reconciling again
        writes nothing, in any environment. */
    method ReconcileTwice(id: string, env: ReconcileEnv, again: ReconcileEnv) returns (first: bool, second: bool, ghost between: Snap)
      modifies this
      ensures between.journal.Some? <==> old(id in journals)
      ensures between.journal.Some? ==> between.journal.value.desired == old(journals[id].desired)
      ensures first && (Follows(between) || between.journal.None?) ==> At(id) == between && Settled(between)
    {
      first := ReconcileVolume(id, env);
      between := At(id);
      second := ReconcileVolume(id, again);
    }

    /** One volume of the start-up pass; its entry is made if there is none yet. */
    method ReconcileEntry(id: string) returns (ok: bool)
      requires id in journals
      modifies this
      ensures forall k :: k != id ==> At(k) == old(At(k))
      ensures id in journals && journals[id].desired == old(journals[id].desired)
      ensures ok ==> Converged(old(journals[id]), At(id), keyUnlocked && kernelLeader)
      ensures keyUnlocked == old(keyUnlocked) && kernelLeader == old(kernelLeader)
    {
      if id !in entries {
        entries := entries[id := NO_ROLE];
      }
      var env: ReconcileEnv := *;
      ok := ReconcileVolume(id, env);
    }

    /** Start-up: every volume with a journal is reconciled, stopping at the first failure. */
    method ReconcileAll() returns (ok: bool)
      modifies this
      ensures forall id :: id in journals <==> id in old(journals)
      ensures forall id :: id in journals ==> journals[id].desired == old(journals)[id].desired
      ensures ok ==> forall id :: id in journals ==> Converged(old(journals)[id], At(id), keyUnlocked && kernelLeader)
      ensures keyUnlocked == old(keyUnlocked) && kernelLeader == old(kernelLeader)
    {
      var rest := journals.Keys;
      while exists id :: id in rest
        invariant forall id :: id in old(journals) <==> At(id).journal.Some?
        invariant forall id :: id in rest ==> id in old(journals) && At(id).journal == Some(old(journals)[id])
        invariant forall id :: id in old(journals) && id !in rest ==>
                    Converged(old(journals)[id], At(id), keyUnlocked && kernelLeader)
        invariant keyUnlocked == old(keyUnlocked) && kernelLeader == old(kernelLeader)
        decreases rest
      {
        var id :| id in rest;
        assert At(id).journal == Some(journals[id]);
        var reconciled := ReconcileEntry(id);
        if !reconciled {
          return false;
        }
        rest := rest - {id};
      }
      ok := true;
    }
  }
}
