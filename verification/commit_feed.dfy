/** Announcing control-store commits: leader callbacks and follower polls racing to publish revisions. */
module CommitFeed {
  import opened Common
  import CS = ControlStore

  datatype Role = Leader | Follower | Unknown

  /** Where a mutating call or a poll stands. */
  datatype Task =
    | Writing                                        // the leader guard let the call through
    | Notifying(commit: Option<nat>)                 // the call succeeded; about to read the revision
    | Holding(commit: Option<nat>, revision: nat)    // a revision in hand; about to offer it

  datatype State = State(
    role: Role,
    loaded: bool,              // the store is unlocked
    revision: nat,             // its revision
    lastCommit: nat,           // highest revision accepted so far
    accepted: seq<nat>,        // revisions accepted for publication, oldest first
    tasks: map<int, Task>,
    offered: set<nat>)         // history: commits whose callback has offered a revision

  const INIT := State(Unknown, false, 0, 0, [], map[], {})

  datatype WriteResult = Fails | SucceedsUnchanged | Commits

  datatype Action =
    | Call(t: int)
    | Write(t: int, result: WriteResult)
    | ReadRevision(t: int)
    | PollRead(t: int)
    | Offer(t: int)
    | ChangeRole(role: Role)
    | LockStore
    | UnlockStore(revision: nat)   // another node may have advanced the tables

  predicate Enabled(s: State, a: Action) {
    match a
    case Call(t) => t !in s.tasks
    case Write(t, r) => t in s.tasks && s.tasks[t].Writing? && (r.Fails? || s.loaded)
    case ReadRevision(t) => t in s.tasks && s.tasks[t].Notifying?
    case PollRead(t) => t !in s.tasks
    case Offer(t) => t in s.tasks && s.tasks[t].Holding?
    case ChangeRole(_) => true
    case LockStore => true
    case UnlockStore(r) => !s.loaded && r >= s.revision
  }

  function Apply(s: State, a: Action): State
    requires Enabled(s, a)
  {
    match a
    case Call(t) => if s.role.Follower? then s else s.(tasks := s.tasks[t := Writing])
    case Write(t, r) =>
      (match r
       case Fails => s.(tasks := s.tasks - {t})
       case SucceedsUnchanged => s.(tasks := s.tasks[t := Notifying(None)])
       case Commits => s.(revision := s.revision + 1, tasks := s.tasks[t := Notifying(Some(s.revision + 1))]))
    case ReadRevision(t) =>
      if s.loaded then s.(tasks := s.tasks[t := Holding(s.tasks[t].commit, s.revision)]) else s.(tasks := s.tasks - {t})
    case PollRead(t) =>
      if s.role.Leader? || !s.loaded then s else s.(tasks := s.tasks[t := Holding(None, s.revision)])
    case Offer(t) =>
      var h := s.tasks[t];
      var done := s.(tasks := s.tasks - {t}, offered := s.offered + if h.commit.Some? then {h.commit.value} else {});
      if h.revision <= s.lastCommit then done
      else done.(lastCommit := h.revision, accepted := s.accepted + [h.revision])
    case ChangeRole(r) => s.(role := r)
    case LockStore => s.(loaded := false)
    case UnlockStore(r) => s.(loaded := true, revision := r)
  }

  predicate StrictlyIncreasing(rs: seq<nat>) {
    forall i, j :: 0 <= i < j < |rs| ==> rs[i] < rs[j]
  }

  ghost predicate TaskSound(s: State, task: Task) {
    match task
    case Writing => true
    case Notifying(c) => c.Some? ==> 1 <= c.value <= s.revision
    case Holding(c, r) => r <= s.revision && (c.Some? ==> 1 <= c.value <= r)
  }

  ghost predicate Inv(s: State) {
    && StrictlyIncreasing(s.accepted)
    && s.lastCommit == (if s.accepted == [] then 0 else s.accepted[|s.accepted| - 1])
    && s.lastCommit <= s.revision
    && (forall t :: t in s.tasks ==> TaskSound(s, s.tasks[t]))
    && (forall c :: c in s.offered ==> c <= s.lastCommit)
  }

  lemma StepKeepsInv(s: State, a: Action)
    requires Inv(s) && Enabled(s, a)
    ensures Inv(Apply(s, a))
  {
  }

  predicate Possible(s: State, actions: seq<Action>)
    decreases |actions|
  {
    actions == [] || (Enabled(s, actions[0]) && Possible(Apply(s, actions[0]), actions[1..]))
  }

  function Run(s: State, actions: seq<Action>): State
    requires Possible(s, actions)
    decreases |actions|
  {
    if actions == [] then s else Run(Apply(s, actions[0]), actions[1..])
  }

  lemma {:induction false} RunKeepsInv(s: State, actions: seq<Action>)
    requires Inv(s) && Possible(s, actions)
    ensures Inv(Run(s, actions)) && s.accepted <= Run(s, actions).accepted && s.offered <= Run(s, actions).offered
    decreases |actions|
  {
    if actions != [] {
      StepKeepsInv(s, actions[0]);
      RunKeepsInv(Apply(s, actions[0]), actions[1..]);
    }
  }

  /** In every interleaving each revision is accepted at most once, in increasing order, and none is invented. */
  lemma NoRevisionTwice(actions: seq<Action>, i: nat, j: nat)
    requires Possible(INIT, actions) && i < j < |Run(INIT, actions).accepted|
    ensures Run(INIT, actions).accepted[i] < Run(INIT, actions).accepted[j] <= Run(INIT, actions).revision
  {
    RunKeepsInv(INIT, actions);
  }

  /** Nothing is skipped for good: a commit whose callback got to offer a revision is covered from then on. */
  lemma OfferedCommitsAreCovered(before: seq<Action>, after: seq<Action>, c: nat)
    requires Possible(INIT, before) && Possible(Run(INIT, before), after)
    requires c in Run(INIT, before).offered
    ensures c <= Run(Run(INIT, before), after).lastCommit
  {
    RunKeepsInv(INIT, before);
    RunKeepsInv(Run(INIT, before), after);
  }

  /** The commit was offered or is in the hands of some task. */
  ghost predicate Underway(s: State, c: nat) {
    c in s.offered || exists t :: t in s.tasks && !s.tasks[t].Writing? && s.tasks[t].commit == Some(c)
  }

  /** The revision that the last unlock among the actions found. */
  function Reloaded(revision: nat, actions: seq<Action>): nat
    decreases |actions|
  {
    if actions == [] then revision
    else Reloaded(if actions[0].UnlockStore? then actions[0].revision else revision, actions[1..])
  }

  /** What a follower may turn into: no write let through, no callback added, no commit of its own. */
  ghost predicate OnlyFollows(s: State, e: State) {
    && e.role.Follower?
    && (forall t :: t in e.tasks ==> !e.tasks[t].Writing?)
    && (forall t :: t in e.tasks && e.tasks[t].Notifying? ==> t in s.tasks && s.tasks[t] == e.tasks[t])
    && (forall c :: Underway(e, c) ==> Underway(s, c))
  }

  lemma FollowerStep(s: State, a: Action)
    requires Enabled(s, a) && s.role.Follower? && !a.ChangeRole?
    requires forall t :: t in s.tasks ==> !s.tasks[t].Writing?
    ensures OnlyFollows(s, Apply(s, a)) && Apply(s, a).revision == if a.UnlockStore? then a.revision else s.revision
  {
    forall c | Underway(Apply(s, a), c) ensures Underway(s, c) {
      if c !in Apply(s, a).offered {
        var t :| t in Apply(s, a).tasks && !Apply(s, a).tasks[t].Writing? && Apply(s, a).tasks[t].commit == Some(c);
        assert t in s.tasks;
      }
    }
  }

  /** A follower with no write in flight, locked or not, commits nothing and starts no commit callback, however long it
      runs; its revision moves only when an unlock reads what another node has stored. */
  lemma {:induction false} FollowersNeverCommit(s: State, actions: seq<Action>)
    requires Possible(s, actions) && s.role.Follower?
    requires forall t :: t in s.tasks ==> !s.tasks[t].Writing?
    requires forall i :: 0 <= i < |actions| ==> !actions[i].ChangeRole?
    ensures OnlyFollows(s, Run(s, actions)) && Run(s, actions).revision == Reloaded(s.revision, actions)
    decreases |actions|
  {
    if actions != [] {
      FollowerStep(s, actions[0]);
      FollowersNeverCommit(Apply(s, actions[0]), actions[1..]);
    }
  }

  /** A leader does not poll: every task of its runs was there before or comes from a call. */
  lemma {:induction false} LeadersOnlyCallBack(s: State, actions: seq<Action>, t: int)
    requires Possible(s, actions) && s.role.Leader?
    requires forall i :: 0 <= i < |actions| ==> !actions[i].ChangeRole?
    ensures t in Run(s, actions).tasks ==> t in s.tasks || exists i :: 0 <= i < |actions| && actions[i] == Call(t)
    decreases |actions|
  {
    if actions != [] {
      var rest := actions[1..];
      LeadersOnlyCallBack(Apply(s, actions[0]), rest, t);
      if i :| 0 <= i < |rest| && rest[i] == Call(t) {
        assert actions[i + 1] == Call(t);
      }
      assert t in Apply(s, actions[0]).tasks && t !in s.tasks ==> actions[0] == Call(t);
    }
  }

  /** A poll of any other node with an unlocked store covers the store's revision. */
  lemma PollCovers(s: State, t: int)
    requires Enabled(s, PollRead(t)) && !s.role.Leader? && s.loaded
    ensures
      var s1 := Apply(s, PollRead(t));
      Enabled(s1, Offer(t)) && Apply(s1, Offer(t)).lastCommit >= s.revision
  {
  }

  /** Every successful write, changing or not, has a callback that covers the revision it left. */
  lemma SuccessIsAnnounced(s: State, t: int, result: WriteResult)
    requires Enabled(s, Write(t, result)) && !result.Fails?
    ensures
      var s1 := Apply(s, Write(t, result));
      && s1.revision == s.revision + (if result.Commits? then 1 else 0)
      && Enabled(s1, ReadRevision(t))
      && var s2 := Apply(s1, ReadRevision(t));
      Enabled(s2, Offer(t)) && Apply(s2, Offer(t)).lastCommit >= s1.revision
  {
  }

  // ---------------------------------------------------------------- the guarded store

  datatype Reply = Done | NotLeader | Refused

  /** The announcements after a revision was offered, given the last one announced. */
  function Announce(announced: seq<nat>, last: nat, revision: nat): seq<nat> {
    if revision > last then announced + [revision] else announced
  }

  class GuardedControlStore {
    const inner: CS.SqliteControlStore
    var role: Role
    var lastCommitRevision: nat
    var announced: seq<nat>

    ghost predicate Valid()
      reads this, inner
    {
      && inner.Valid() && StrictlyIncreasing(announced)
      && lastCommitRevision == (if announced == [] then 0 else announced[|announced| - 1])
    }

    constructor (inner: CS.SqliteControlStore)
      requires inner.Valid()
      ensures Valid() && this.inner == inner && announced == []
    {
      this.inner := inner;
      role, lastCommitRevision, announced := Unknown, 0, [];
    }

    /** Announces a revision not announced before. */
    method PublishControlCommit(revision: nat)
      requires Valid()
      modifies this`lastCommitRevision, this`announced
      ensures Valid() && lastCommitRevision >= revision
      ensures announced == Announce(old(announced), old(lastCommitRevision), revision)
    {
      if revision <= lastCommitRevision {
        return;
      }
      lastCommitRevision := revision;
      announced := announced + [revision];
    }

    method OnControlCommit()
      requires Valid()
      modifies this`lastCommitRevision, this`announced
      ensures Valid() && (inner.loaded ==> lastCommitRevision >= inner.tables.revision)
      ensures announced == if inner.loaded then Announce(old(announced), old(lastCommitRevision), inner.tables.revision) else old(announced)
    {
      if inner.loaded {
        PublishControlCommit(inner.cache.revision);
      }
    }

    method PollRevision()
      requires Valid()
      modifies this`lastCommitRevision, this`announced
      ensures Valid() && (!role.Leader? && inner.loaded ==> lastCommitRevision >= inner.tables.revision)
      ensures announced == if !role.Leader? && inner.loaded then Announce(old(announced), old(lastCommitRevision), inner.tables.revision)
                           else old(announced)
    {
      if role != Leader && inner.loaded {
        PublishControlCommit(inner.cache.revision);
      }
    }

    /** Every mutating repository call: refused to a follower before it reaches the store, announced after success. */
    method Mutate(op: CS.Op, fate: CS.Fate) returns (reply: Reply)
      requires Valid() && !op.Lock? && !op.Unlock?
      modifies this`lastCommitRevision, this`announced, inner
      ensures Valid()
      ensures inner.View() == if role.Follower? then old(inner.View()) else CS.Step(old(inner.View()), op, fate)
      ensures reply.NotLeader? <==> role.Follower?
      ensures reply.Done? <==> !role.Follower? && CS.Acknowledged(old(inner.View()), op, fate)
      ensures !reply.Done? ==> announced == old(announced) && inner.tables == old(inner.tables)
      ensures reply.Done? ==> inner.loaded && lastCommitRevision >= inner.tables.revision
      ensures reply.Done? ==> announced == Announce(old(announced), old(lastCommitRevision), inner.tables.revision)
    {
      if role == Follower {
        return NotLeader;
      }
      var ok := Forward(op, fate);
      if ok {
        OnControlCommit();
      }
      reply := if ok then Done else Refused;
    }

    method Forward(op: CS.Op, fate: CS.Fate) returns (ok: bool)
      requires inner.Valid() && !op.Lock? && !op.Unlock?
      modifies inner
      ensures inner.Valid() && inner.View() == CS.Step(old(inner.View()), op, fate)
      ensures ok <==> CS.Acknowledged(old(inner.View()), op, fate)
      ensures ok ==> inner.loaded
      ensures !ok ==> inner.tables == old(inner.tables)
    {
      match op {
        case SetInitialized => ok := inner.SetInitialized(fate);
        case SavePasswordHash(h) => ok := inner.SavePasswordHash(h, fate);
        case UpdateStaleness(u) => ok := inner.UpdateStaleness(u, fate);
        case SaveConfig(p) => ok := inner.SaveConfig(p, fate);
        case UpsertApp(r) => ok := inner.UpsertApp(r, fate);
      }
    }
  }
}
