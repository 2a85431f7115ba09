/** The control store: tables written in transactions, read through an in-memory copy loaded at unlock. */
module ControlStore {
  import opened Common

  // ---------------------------------------------------------------- data

  /** A timestamp: unset, or an instant seen from some time zone. */
  datatype Stamp = Unset | At(ns: int, zone: int)

  /** A timestamp column: blank, or the instant written out in UTC. */
  datatype StampText = Blank | Utc(ns: int)

  function Canonical(t: Stamp): Stamp {
    match t case Unset => Unset case At(ns, _) => At(ns, 0)
  }

  function FormatStamp(t: Stamp): StampText {
    match t case Unset => Blank case At(ns, _) => Utc(ns)
  }

  function ParseStamp(s: StampText): Stamp {
    match s case Blank => Unset case Utc(ns) => At(ns, 0)
  }

  datatype AppRecord = AppRecord(name: string)

  /** Flags are integers and an absent hash is NULL, as the columns hold them. */
  datatype AuthRow = AuthRow(initialized: int, hash: Option<string>,
                             passwordStale: int, passwordStaleAt: StampText, passwordAckAt: StampText,
                             recoveryStale: int, recoveryStaleAt: StampText, recoveryAckAt: StampText)

  datatype Content = Content(initialized: bool, hash: string,
                             passwordStale: bool, passwordStaleAt: Stamp, passwordAckAt: Stamp,
                             recoveryStale: bool, recoveryStaleAt: Stamp, recoveryAckAt: Stamp,
                             remote: Option<seq<int>>, apps: map<string, AppRecord>)

  /** A collision-free digest is as good as what it digests. */
  datatype Checksum = NoChecksum | DigestOf(content: Content, revision: nat)

  datatype Tables = Tables(revision: nat, checksum: Checksum, auth: AuthRow, remote: Option<seq<int>>, apps: map<string, AppRecord>)

  datatype Cache = Cache(content: Content, revision: nat, checksum: Checksum)

  const EMPTY_CONTENT := Content(false, "", false, Unset, Unset, false, Unset, Unset, None, map[])
  const EMPTY_CACHE := Cache(EMPTY_CONTENT, 0, NoChecksum)
  const MIGRATED := Tables(0, NoChecksum, AuthRow(0, None, 0, Blank, Blank, 0, Blank, Blank), None, map[])

  function Flag(b: bool): int {
    if b then 1 else 0
  }

  /** What the tables mean: the state an unlock loads. */
  function Decode(t: Tables): Content {
    Content(t.auth.initialized == 1, match t.auth.hash case None => "" case Some(h) => h,
            t.auth.passwordStale == 1, ParseStamp(t.auth.passwordStaleAt), ParseStamp(t.auth.passwordAckAt),
            t.auth.recoveryStale == 1, ParseStamp(t.auth.recoveryStaleAt), ParseStamp(t.auth.recoveryAckAt),
            t.remote, t.apps)
  }

  datatype StalenessUpdate = StalenessUpdate(passwordStale: Option<bool>, passwordStaleAt: Option<Stamp>, passwordAckAt: Option<Stamp>,
                                             recoveryStale: Option<bool>, recoveryStaleAt: Option<Stamp>, recoveryAckAt: Option<Stamp>)

  const NO_UPDATE := StalenessUpdate(None, None, None, None, None, None)

  function Or<T>(o: Option<T>, other: T): T {
    match o case None => other case Some(v) => v
  }

  function OrFlag(o: Option<bool>, other: int): int {
    match o case None => other case Some(v) => Flag(v)
  }

  function OrText(o: Option<Stamp>, other: StampText): StampText {
    match o case None => other case Some(t) => FormatStamp(Canonical(t))
  }

  function OrStamp(o: Option<Stamp>, other: Stamp): Stamp {
    match o case None => other case Some(t) => Canonical(t)
  }

  /** The statements a write can run in its transaction. */
  datatype Mutation =
    | AuthState(initialized: bool, hash: Option<string>)
    | Staleness(update: StalenessUpdate)
    | Remote(payload: seq<int>)
    | App(record: AppRecord)

  /** Effect on the tables; an auth write without a hash rewrites the one the cache holds. */
  function OnTables(t: Tables, c: Content, m: Mutation): Tables {
    match m
    case AuthState(init, hash) => t.(auth := t.auth.(initialized := Flag(init), hash := Some(Or(hash, c.hash))))
    case Staleness(u) =>
      t.(auth := t.auth.(passwordStale := OrFlag(u.passwordStale, t.auth.passwordStale),
                         passwordStaleAt := OrText(u.passwordStaleAt, t.auth.passwordStaleAt),
                         passwordAckAt := OrText(u.passwordAckAt, t.auth.passwordAckAt),
                         recoveryStale := OrFlag(u.recoveryStale, t.auth.recoveryStale),
                         recoveryStaleAt := OrText(u.recoveryStaleAt, t.auth.recoveryStaleAt),
                         recoveryAckAt := OrText(u.recoveryAckAt, t.auth.recoveryAckAt)))
    case Remote(payload) => t.(remote := Some(payload))
    case App(r) => t.(apps := t.apps[r.name := r])
  }

  /** Effect on the in-memory copy. */
  function OnCache(c: Content, m: Mutation): Content {
    match m
    case AuthState(init, hash) => c.(initialized := init, hash := Or(hash, c.hash))
    case Staleness(u) =>
      c.(passwordStale := Or(u.passwordStale, c.passwordStale),
         passwordStaleAt := OrStamp(u.passwordStaleAt, c.passwordStaleAt),
         passwordAckAt := OrStamp(u.passwordAckAt, c.passwordAckAt),
         recoveryStale := Or(u.recoveryStale, c.recoveryStale),
         recoveryStaleAt := OrStamp(u.recoveryStaleAt, c.recoveryStaleAt),
         recoveryAckAt := OrStamp(u.recoveryAckAt, c.recoveryAckAt))
    case Remote(payload) => c.(remote := Some(payload))
    case App(r) => c.(apps := c.apps[r.name := r])
  }

  // ---------------------------------------------------------------- operations

  /** How far a call gets. */
  datatype Fate =
    | NotBegun    // volume gone, database not opened, transaction refused
    | ExecFails   // the write's own statement fails
    | RolledBack  // the revision update or the commit fails
    | Commits

  datatype Store = Store(tables: Tables, cache: Cache, loaded: bool, readOnly: bool)

  const FRESH := Store(MIGRATED, EMPTY_CACHE, false, false)

  predicate Writable(s: Store) {
    s.loaded && !s.readOnly
  }

  /** A staleness write changes the cache before its statement runs; the others after. */
  function Write(s: Store, m: Mutation, fate: Fate): Store {
    var touched := s.(cache := s.cache.(content := OnCache(s.cache.content, m)));
    if !Writable(s) || fate.NotBegun? then s
    else if fate.ExecFails? then (if m.Staleness? then touched else s)
    else if fate.RolledBack? then touched
    else
      var revision := s.cache.revision + 1;
      var checksum := DigestOf(touched.cache.content, revision);
      Store(OnTables(s.tables, s.cache.content, m).(revision := revision, checksum := checksum),
            Cache(touched.cache.content, revision, checksum), s.loaded, s.readOnly)
  }

  datatype Op =
    | SetInitialized
    | SavePasswordHash(hash: string)
    | UpdateStaleness(update: StalenessUpdate)
    | SaveConfig(payload: seq<int>)
    | UpsertApp(record: AppRecord)
    | Lock
    | Unlock(granted: bool, mountReadOnly: bool)

  /** The transaction an operation runs, if it runs one. */
  function MutationOf(c: Content, op: Op): Option<Mutation> {
    match op
    case SetInitialized => if c.initialized then None else Some(AuthState(true, None))
    case SavePasswordHash(h) => Some(AuthState(c.initialized, Some(h)))
    case UpdateStaleness(u) => if u == NO_UPDATE then None else Some(Staleness(u))
    case SaveConfig(p) => Some(Remote(p))
    case UpsertApp(r) => if r.name == "" then None else Some(App(r))
    case Lock => None
    case Unlock(_, _) => None
  }

  function Step(s: Store, op: Op, fate: Fate): Store {
    match op
    case Lock => Store(s.tables, EMPTY_CACHE, false, false)
    case Unlock(granted, ro) =>
      if s.loaded then s
      else if !granted then s.(readOnly := ro)
      else Store(s.tables, Cache(Decode(s.tables), s.tables.revision, s.tables.checksum), true, ro)
    case _ =>
      match MutationOf(s.cache.content, op)
      case None => s
      case Some(m) => Write(s, m, fate)
  }

  /** The operation changed the tables. */
  predicate CommitsWrite(s: Store, op: Op, fate: Fate) {
    Writable(s) && fate.Commits? && MutationOf(s.cache.content, op).Some?
  }

  /** The operation reports success: its transaction committed, or it found nothing to do in a store that is ready. */
  predicate Acknowledged(s: Store, op: Op, fate: Fate) {
    && Writable(s)
    && if MutationOf(s.cache.content, op).Some? then fate.Commits? else !fate.NotBegun? && !op.UpsertApp?
  }

  /** The operation changed the cache and then failed. */
  predicate UndoesWrite(s: Store, op: Op, fate: Fate) {
    && Writable(s) && MutationOf(s.cache.content, op).Some?
    && (fate.RolledBack? || (fate.ExecFails? && op.UpdateStaleness?))
  }

  datatype Call = Call(op: Op, fate: Fate)

  function Run(calls: seq<Call>): Store {
    if calls == [] then FRESH
    else
      var last := calls[|calls| - 1];
      Step(Run(calls[..|calls| - 1]), last.op, last.fate)
  }

  function CommitCount(calls: seq<Call>): nat {
    if calls == [] then 0
    else
      var before, last := calls[..|calls| - 1], calls[|calls| - 1];
      CommitCount(before) + if CommitsWrite(Run(before), last.op, last.fate) then 1 else 0
  }

  /** Exactly which calls report success: a write that commits, an initialisation that is cached already, and an update
      that asks for nothing, each on an unlocked store that may be written; never an app without a name. */
  lemma AcknowledgedExactly(s: Store, op: Op, fate: Fate)
    ensures Acknowledged(s, op, fate) && !op.Lock? && !op.Unlock? <==>
            (&& s.loaded && !s.readOnly
             && match op
                case SetInitialized => fate == Commits || (s.cache.content.initialized && fate != NotBegun)
                case SavePasswordHash(_) => fate == Commits
                case UpdateStaleness(u) =>
                  || fate == Commits
                  || (&& fate != NotBegun && u.passwordStale.None? && u.passwordStaleAt.None? && u.passwordAckAt.None?
                      && u.recoveryStale.None? && u.recoveryStaleAt.None? && u.recoveryAckAt.None?)
                case SaveConfig(_) => fate == Commits
                case UpsertApp(r) => fate == Commits && |r.name| > 0
                case _ => false)
  {
  }

  // ---------------------------------------------------------------- cache and tables

  /** Flags are 0 or 1, so that writing and reading them back is the identity. */
  ghost predicate Encoded(t: Tables) {
    && t.auth.initialized in {0, 1} && t.auth.passwordStale in {0, 1} && t.auth.recoveryStale in {0, 1}
  }

  ghost predicate Agrees(s: Store) {
    s.loaded ==> s.cache.content == Decode(s.tables)
  }

  ghost predicate RevisionAgrees(s: Store) {
    s.loaded ==> s.cache.revision == s.tables.revision && s.cache.checksum == s.tables.checksum
  }

  /** The revision counts the commits exactly, and the cached revision and checksum are those of the meta row. */
  lemma {:induction false} RevisionCountsCommits(calls: seq<Call>)
    ensures
      var s := Run(calls);
      && s.tables.revision == CommitCount(calls) && RevisionAgrees(s)
      && (!s.loaded ==> s.cache == EMPTY_CACHE)
  {
    if calls != [] {
      RevisionCountsCommits(calls[..|calls| - 1]);
    }
  }

  /** Writing to the tables and to an agreeing cache gives an agreeing cache. */
  lemma MutationKeepsAgreement(t: Tables, m: Mutation)
    requires Encoded(t)
    ensures Decode(OnTables(t, Decode(t), m)) == OnCache(Decode(t), m) && Encoded(OnTables(t, Decode(t), m))
  {
  }

  lemma EncodedStep(s: Store, op: Op, fate: Fate)
    requires Encoded(s.tables)
    ensures Encoded(Step(s, op, fate).tables)
  {
  }

  /** Some write since the last lock was undone after it had touched the cache. */
  predicate UndoneSinceLock(calls: seq<Call>) {
    if calls == [] then false
    else
      var before, last := calls[..|calls| - 1], calls[|calls| - 1];
      !last.op.Lock? && (UndoneSinceLock(before) || UndoesWrite(Run(before), last.op, last.fate))
  }

  /** If nothing was undone since the last lock, the cache is the tables. */
  lemma {:induction false} CommittedRunsAgree(calls: seq<Call>)
    ensures Encoded(Run(calls).tables)
    ensures !UndoneSinceLock(calls) ==> Agrees(Run(calls))
  {
    if calls != [] {
      var before, last := calls[..|calls| - 1], calls[|calls| - 1];
      CommittedRunsAgree(before);
      EncodedStep(Run(before), last.op, last.fate);
      if !UndoneSinceLock(calls) && !last.op.Lock? {
        AgreementKeptIff(Run(before), last.op, last.fate);
      }
    }
  }

  /** Whatever was undone before, locking and unlocking restores agreement; if nothing was, it changes nothing. */
  lemma RelockRestoresAgreement(calls: seq<Call>, ro: bool, fate: Fate)
    ensures
      var s := Run(calls);
      var t := Step(Step(s, Lock, fate), Unlock(true, ro), fate);
      && t.tables == s.tables && Agrees(t) && RevisionAgrees(t) && t.loaded
      && (!UndoneSinceLock(calls) && s.loaded ==> t.cache == s.cache)
  {
    RevisionCountsCommits(calls);
    CommittedRunsAgree(calls);
  }

  /** A store unlocked on a read-only mount stores nothing until it is locked again, whatever is asked of it. */
  lemma {:induction false} ReadOnlyStoresNothing(s: Store, calls: seq<Call>)
    requires s.loaded && s.readOnly && forall i :: 0 <= i < |calls| ==> !calls[i].op.Lock?
    ensures RunFrom(s, calls) == s
    decreases |calls|
  {
    if calls != [] {
      ReadOnlyStoresNothing(s, calls[1..]);
    }
  }

  function RunFrom(s: Store, calls: seq<Call>): Store
    decreases |calls|
  {
    if calls == [] then s else RunFrom(Step(s, calls[0].op, calls[0].fate), calls[1..])
  }

  /** An unlock takes over how its volume is mounted: read-only for good, or writable. */
  lemma UnlockTakesTheMount(s: Store, ro: bool, calls: seq<Call>)
    requires !s.loaded && forall i :: 0 <= i < |calls| ==> !calls[i].op.Lock?
    ensures
      var t := Step(s, Unlock(true, ro), Commits);
      && t.loaded && t.tables == s.tables && (Writable(t) <==> !ro)
      && (ro ==> RunFrom(t, calls) == t)
  {
    if ro {
      ReadOnlyStoresNothing(Step(s, Unlock(true, ro), Commits), calls);
    }
  }

  // ---------------------------------------------------------------- the checksum

  ghost predicate ChecksumDescribesTables(t: Tables) {
    t.revision > 0 ==> t.checksum == DigestOf(Decode(t), t.revision)
  }

  /** A commit leaves a checksum of its tables exactly when the cache it digested agrees with them. */
  lemma CommitChecksumIff(s: Store, op: Op)
    requires CommitsWrite(s, op, Commits)
    ensures ChecksumDescribesTables(Step(s, op, Commits).tables) <==> Agrees(Step(s, op, Commits))
  {
  }

  ghost predicate CommitsAt(calls: seq<Call>, i: int) {
    0 <= i < |calls| && CommitsWrite(Run(calls[..i]), calls[i].op, calls[i].fate)
  }

  /** The i-th call is the last one that committed. */
  ghost predicate LastCommit(calls: seq<Call>, i: int) {
    CommitsAt(calls, i) && forall j :: i < j ==> !CommitsAt(calls, j)
  }

  /** The cache agreed with the tables right after the last commit, if there was one. */
  ghost predicate AgreedAtLastCommit(calls: seq<Call>) {
    forall i :: LastCommit(calls, i) ==> Agrees(Run(calls[..i + 1]))
  }

  /** After any run the stored checksum describes the tables exactly when the cache agreed with them right after the last
      commit: neither a rolled-back write nor a lock since then matters. */
  lemma {:induction false} ChecksumDescribesIff(calls: seq<Call>)
    ensures ChecksumDescribesTables(Run(calls).tables) <==> AgreedAtLastCommit(calls)
  {
    if calls != [] {
      var last := |calls| - 1;
      var before := calls[..last];
      assert calls[..last + 1] == calls;
      if CommitsAt(calls, last) {
        CommitChecksumIff(Run(before), calls[last].op);
        assert LastCommit(calls, last) && forall i :: LastCommit(calls, i) ==> i == last;
      } else {
        ChecksumDescribesIff(before);
        OnlyCommitsMoveTables(Run(before), calls[last].op, calls[last].fate);
        SameLastCommit(calls, last);
      }
    }
  }

  /** In particular it does if nothing committed while an undone write was still in the cache. */
  lemma CleanCommitsAreDigested(calls: seq<Call>)
    requires forall i :: CommitsAt(calls, i) ==> !UndoneSinceLock(calls[..i])
    ensures ChecksumDescribesTables(Run(calls).tables)
  {
    forall i | CommitsAt(calls, i) ensures Agrees(Run(calls[..i + 1])) {
      assert calls[..i + 1][..i] == calls[..i] && calls[..i + 1][i] == calls[i];
      assert !UndoneSinceLock(calls[..i + 1]);
      CommittedRunsAgree(calls[..i + 1]);
    }
    ChecksumDescribesIff(calls);
  }

  lemma CommitsAtPrefix(calls: seq<Call>, n: nat, i: int)
    requires n <= |calls| && i < n
    ensures CommitsAt(calls[..n], i) <==> CommitsAt(calls, i)
    ensures 0 <= i ==> calls[..n][..i + 1] == calls[..i + 1]
  {
    if 0 <= i {
      assert calls[..n][..i] == calls[..i];
    }
  }

  lemma SameLastCommit(calls: seq<Call>, last: nat)
    requires |calls| == last + 1 && !CommitsAt(calls, last)
    ensures AgreedAtLastCommit(calls) <==> AgreedAtLastCommit(calls[..last])
  {
    var before := calls[..last];
    forall i ensures CommitsAt(calls, i) <==> CommitsAt(before, i) {
      if i < last {
        CommitsAtPrefix(calls, last, i);
      }
    }
    forall i | CommitsAt(calls, i) ensures Run(before[..i + 1]) == Run(calls[..i + 1]) {
      CommitsAtPrefix(calls, last, i);
    }
    assert forall i :: LastCommit(calls, i) <==> LastCommit(before, i);
  }

  lemma RunOfTwo(a: Call, b: Call)
    ensures Run([a, b]) == Step(Step(FRESH, a.op, a.fate), b.op, b.fate)
  {
    assert [a, b][..1] == [a] && [a][..0] == [];
    assert Run([a]) == Step(Run([]), a.op, a.fate);
  }

  lemma RunOfFive(a: Call, b: Call, c: Call, d: Call, e: Call)
    ensures Run([a, b, c, d, e]) == Step(Step(Step(Run([a, b]), c.op, c.fate), d.op, d.fate), e.op, e.fate)
  {
    assert [a, b, c, d, e][..4] == [a, b, c, d] && [a, b, c, d][..3] == [a, b, c] && [a, b, c][..2] == [a, b];
    assert Run([a, b, c]) == Step(Run([a, b]), c.op, c.fate);
    assert Run([a, b, c, d]) == Step(Run([a, b, c]), d.op, d.fate);
  }

  /** A commit over a cache that disagrees in a field it does not write is digested wrongly. */
  lemma DisagreeingCommit(s: Store, payload: seq<int>)
    requires Writable(s) && s.cache.content.hash != Decode(s.tables).hash
    ensures CommitsWrite(s, SaveConfig(payload), Commits)
    ensures !ChecksumDescribesTables(Step(s, SaveConfig(payload), Commits).tables)
  {
    var t := Step(s, SaveConfig(payload), Commits);
    assert t.cache.content.hash == s.cache.content.hash && Decode(t.tables).hash == Decode(s.tables).hash;
    CommitChecksumIff(s, SaveConfig(payload));
  }

  lemma UndoneHashStays(hash: string)
    ensures
      var s := Step(Step(FRESH, Unlock(true, false), Commits), SavePasswordHash(hash), RolledBack);
      Writable(s) && s.cache.content.hash == hash && Decode(s.tables).hash == ""
  {
  }

  lemma RelockKeepsTables(s: Store)
    ensures
      var t := Step(Step(s, Lock, Commits), Unlock(true, false), Commits);
      t.loaded && Agrees(t) && t.tables == s.tables
  {
  }

  /** A rolled-back hash is digested by the next commit, and no lock mends the stored checksum. */
  lemma UndoneHashIsDigested(hash: string, payload: seq<int>)
    requires hash != ""
    ensures
      var open, undone := Call(Unlock(true, false), Commits), Call(SavePasswordHash(hash), RolledBack);
      var s := Run([open, undone, Call(SaveConfig(payload), Commits), Call(Lock, Commits), open]);
      s.loaded && Agrees(s) && !ChecksumDescribesTables(s.tables)
  {
    var open, undone := Call(Unlock(true, false), Commits), Call(SavePasswordHash(hash), RolledBack);
    RunOfTwo(open, undone);
    UndoneHashStays(hash);
    RunOfFive(open, undone, Call(SaveConfig(payload), Commits), Call(Lock, Commits), open);
    DisagreeingCommit(Run([open, undone]), payload);
    RelockKeepsTables(Step(Run([open, undone]), SaveConfig(payload), Commits));
  }

  // ---------------------------------------------------------------- what undone writes can do

  /** What an operation is meant to do to the stored content. */
  function Intent(c: Content, op: Op): Content {
    match op
    case SetInitialized => c.(initialized := true)
    case SavePasswordHash(h) => c.(hash := h)
    case UpdateStaleness(u) => OnCache(c, Staleness(u))
    case SaveConfig(p) => c.(remote := Some(p))
    case UpsertApp(r) => c.(apps := c.apps[r.name := r])
    case _ => c
  }

  /** An agreeing cache stops agreeing exactly when a write that would have changed something is undone. */
  lemma AgreementKeptIff(s: Store, op: Op, fate: Fate)
    requires Encoded(s.tables) && Agrees(s)
    ensures Agrees(Step(s, op, fate)) <==> !(UndoesWrite(s, op, fate) && Intent(Decode(s.tables), op) != Decode(s.tables))
  {
    if CommitsWrite(s, op, fate) {
      MutationKeepsAgreement(s.tables, MutationOf(s.cache.content, op).value);
    } else if UndoesWrite(s, op, fate) {
      UndoneIntent(s, op, fate);
    }
  }

  /** An undone write leaves its intent in an agreeing cache. */
  lemma UndoneIntent(s: Store, op: Op, fate: Fate)
    requires Agrees(s) && UndoesWrite(s, op, fate)
    ensures Step(s, op, fate).tables == s.tables && Step(s, op, fate).cache.content == Intent(Decode(s.tables), op)
  {
  }

  predicate SameInstant(given: Stamp, read: Stamp) {
    match given case Unset => read.Unset? case At(ns, _) => read.At? && read.ns == ns
  }

  /** A flag or instant of an update, if given, is what is read; otherwise what was stored before. */
  ghost predicate FlagReads(given: Option<bool>, before: bool, read: bool) {
    read == match given case None => before case Some(b) => b
  }

  ghost predicate InstantReads(given: Option<Stamp>, before: Stamp, read: Stamp) {
    match given case None => read == before case Some(t) => SameInstant(t, read)
  }

  /** A committed staleness update reads back after a lock and unlock, each field on its own, whatever zone its instants
      were given in; nothing else changes. */
  lemma StalenessReadsBack(s: Store, u: StalenessUpdate, ro: bool)
    requires Encoded(s.tables) && Writable(s) && u != NO_UPDATE
    ensures
      var t := Step(Step(Step(s, UpdateStaleness(u), Commits), Lock, Commits), Unlock(true, ro), Commits);
      var before, read := Decode(s.tables), t.cache.content;
      && t.loaded && FlagReads(u.passwordStale, before.passwordStale, read.passwordStale)
      && FlagReads(u.recoveryStale, before.recoveryStale, read.recoveryStale)
      && InstantReads(u.passwordStaleAt, before.passwordStaleAt, read.passwordStaleAt)
      && InstantReads(u.passwordAckAt, before.passwordAckAt, read.passwordAckAt)
      && InstantReads(u.recoveryStaleAt, before.recoveryStaleAt, read.recoveryStaleAt)
      && InstantReads(u.recoveryAckAt, before.recoveryAckAt, read.recoveryAckAt)
      && read.initialized == before.initialized && read.hash == before.hash
      && read.remote == before.remote && read.apps == before.apps
  {
    var c := Step(s, UpdateStaleness(u), Commits);
    assert c.tables.auth == OnTables(s.tables, s.cache.content, Staleness(u)).auth;
    assert c.tables.remote == s.tables.remote && c.tables.apps == s.tables.apps;
  }

  /** The cached auth field that an operation rewrites beside its own is the stored one. */
  predicate CompanionAgrees(s: Store, op: Op) {
    match op
    case SetInitialized => s.cache.content.hash == Decode(s.tables).hash
    case SavePasswordHash(_) => s.cache.content.initialized == Decode(s.tables).initialized
    case _ => true
  }

  lemma CommittedTables(s: Store, op: Op)
    requires CommitsWrite(s, op, Commits)
    ensures Decode(Step(s, op, Commits).tables)
         == Decode(OnTables(s.tables, s.cache.content, MutationOf(s.cache.content, op).value))
  {
  }

  /** A committed write does what was meant exactly when the cached auth field it also rewrites is the stored one. */
  lemma CommitIsFaithfulIff(s: Store, op: Op)
    requires Encoded(s.tables) && CommitsWrite(s, op, Commits)
    ensures Decode(Step(s, op, Commits).tables) == Intent(Decode(s.tables), op) <==> CompanionAgrees(s, op)
  {
    CommittedTables(s, op);
    if !op.SetInitialized? && !op.SavePasswordHash? {
      var m := MutationOf(s.cache.content, op).value;
      MutationKeepsAgreement(s.tables, m);
      assert OnTables(s.tables, s.cache.content, m) == OnTables(s.tables, Decode(s.tables), m);
    }
  }

  /** An undone password change comes back to life: the next committed initialisation stores it. */
  lemma UndoneHashIsStoredLater(hash: string)
    requires hash != ""
    ensures
      var open := Call(Unlock(true, false), Commits);
      var undone := Call(SavePasswordHash(hash), RolledBack);
      var init := Call(SetInitialized, Commits);
      && Decode(Run([open, undone]).tables).hash == ""
      && Decode(Run([open, undone, init]).tables).hash == hash
      && CommitCount([open, undone, init]) == 1
  {
    var open := Call(Unlock(true, false), Commits);
    var undone := Call(SavePasswordHash(hash), RolledBack);
    var init := Call(SetInitialized, Commits);
    assert [open][..0] == [] && [open, undone][..1] == [open] && [open, undone, init][..2] == [open, undone];
    assert Run([]) == FRESH && CommitCount([]) == 0;
    var s1 := Run([open]);
    assert s1.loaded && !s1.readOnly && s1.cache.content == EMPTY_CONTENT;
    var s2 := Run([open, undone]);
    assert s2.tables == MIGRATED && s2.cache.content.hash == hash && CommitCount([open]) == 0;
    RevisionCountsCommits([open, undone, init]);
  }

  /** An undone initialisation makes the next one report success without storing anything. */
  lemma UndoneInitialisationIsAcknowledged()
    ensures
      var open := Call(Unlock(true, false), Commits);
      var undone, again := Call(SetInitialized, RolledBack), Call(SetInitialized, Commits);
      var s := Run([open, undone, again]);
      && Acknowledged(Run([open, undone]), SetInitialized, Commits)
      && s.cache.content.initialized && !Decode(s.tables).initialized && s.tables.revision == 0
  {
    var open := Call(Unlock(true, false), Commits);
    var undone, again := Call(SetInitialized, RolledBack), Call(SetInitialized, Commits);
    assert [open][..0] == [] && [open, undone][..1] == [open] && [open, undone, again][..2] == [open, undone];
    assert Run([]) == FRESH;
    var s1 := Run([open]);
    assert s1.loaded && !s1.readOnly && s1.cache.content == EMPTY_CONTENT;
    var s2 := Run([open, undone]);
    assert s2.tables == MIGRATED && s2.cache.content.initialized;
  }

  /** An acknowledged initialisation has stored its flag exactly when the cached flag, if set, was stored already. */
  lemma InitialisationIsStoredIff(s: Store, fate: Fate)
    requires Acknowledged(s, SetInitialized, fate)
    ensures Decode(Step(s, SetInitialized, fate).tables).initialized <==>
            (s.cache.content.initialized ==> Decode(s.tables).initialized)
  {
  }

  datatype AuthField = Initialized | Hash

  predicate Writes(op: Op, f: AuthField) {
    match f case Initialized => op.SetInitialized? case Hash => op.SavePasswordHash?
  }

  predicate AuthWrite(op: Op) {
    op.SetInitialized? || op.SavePasswordHash?
  }

  /** Whether an undone write of the field is open after a call, given whether one was open before. */
  predicate StaysOpen(s: Store, op: Op, fate: Fate, f: AuthField, wasOpen: bool) {
    && !op.Lock? && !(AuthWrite(op) && CommitsWrite(s, op, fate))
    && (wasOpen || (Writes(op, f) && UndoesWrite(s, op, fate)))
  }

  /** A write of the field was undone, and neither a lock nor a committed auth write has followed. */
  predicate OpenUndone(calls: seq<Call>, f: AuthField) {
    if calls == [] then false
    else
      var before, last := calls[..|calls| - 1], calls[|calls| - 1];
      StaysOpen(Run(before), last.op, last.fate, f, OpenUndone(before, f))
  }

  /** What the history of undone auth writes says about cache and tables. */
  ghost predicate HistoryExplains(s: Store, initialisationOpen: bool, hashOpen: bool) {
    && (initialisationOpen ==> s.loaded && s.cache.content.initialized && !Decode(s.tables).initialized)
    && (s.loaded && !initialisationOpen ==> s.cache.content.initialized == Decode(s.tables).initialized)
    && (hashOpen ==> s.loaded)
    && (s.loaded && !hashOpen ==> s.cache.content.hash == Decode(s.tables).hash)
  }

  lemma AuthWriteExplains(s: Store, op: Op, fate: Fate, i: bool, h: bool)
    requires HistoryExplains(s, i, h) && AuthWrite(op)
    ensures HistoryExplains(Step(s, op, fate), StaysOpen(s, op, fate, Initialized, i), StaysOpen(s, op, fate, Hash, h))
  {
  }

  lemma OtherOpExplains(s: Store, op: Op, fate: Fate, i: bool, h: bool)
    requires HistoryExplains(s, i, h) && !AuthWrite(op)
    ensures HistoryExplains(Step(s, op, fate), StaysOpen(s, op, fate, Initialized, i), StaysOpen(s, op, fate, Hash, h))
  {
  }

  lemma {:induction false} EveryHistoryExplains(calls: seq<Call>)
    ensures HistoryExplains(Run(calls), OpenUndone(calls, Initialized), OpenUndone(calls, Hash))
  {
    if calls != [] {
      var before, last := calls[..|calls| - 1], calls[|calls| - 1];
      EveryHistoryExplains(before);
      if AuthWrite(last.op) {
        AuthWriteExplains(Run(before), last.op, last.fate, OpenUndone(before, Initialized), OpenUndone(before, Hash));
      } else {
        OtherOpExplains(Run(before), last.op, last.fate, OpenUndone(before, Initialized), OpenUndone(before, Hash));
      }
    }
  }

  /** After any run, an initialisation that reports success has stored its flag unless an undone one is still open. */
  lemma AcknowledgedInitialisationIff(calls: seq<Call>, fate: Fate)
    requires Acknowledged(Run(calls), SetInitialized, fate)
    ensures Decode(Run(calls + [Call(SetInitialized, fate)]).tables).initialized <==> !OpenUndone(calls, Initialized)
  {
    EveryHistoryExplains(calls);
    assert (calls + [Call(SetInitialized, fate)])[..|calls|] == calls;
    InitialisationIsStoredIff(Run(calls), fate);
  }

  /** The committed operations, replayed on stored content alone. */
  function Replay(calls: seq<Call>): Content {
    if calls == [] then EMPTY_CONTENT
    else
      var before, last := calls[..|calls| - 1], calls[|calls| - 1];
      if CommitsWrite(Run(before), last.op, last.fate) then Intent(Replay(before), last.op) else Replay(before)
  }

  /** After every call of the run the tables hold the committed operations and nothing else. */
  ghost predicate AlwaysReplays(calls: seq<Call>) {
    forall n :: 0 <= n <= |calls| ==> Decode(Run(calls[..n]).tables) == Replay(calls[..n])
  }

  /** The i-th call stores what was meant, if it commits anything. */
  ghost predicate CommitsFaithfully(calls: seq<Call>, i: nat)
    requires i < |calls|
  {
    CommitsWrite(Run(calls[..i]), calls[i].op, calls[i].fate) ==> CompanionAgrees(Run(calls[..i]), calls[i].op)
  }

  /** One call: the tables go on replaying the commits exactly when it commits faithfully. */
  lemma ReplayStep(calls: seq<Call>, i: nat)
    requires i < |calls| && Decode(Run(calls[..i]).tables) == Replay(calls[..i])
    ensures Decode(Run(calls[..i + 1]).tables) == Replay(calls[..i + 1]) <==> CommitsFaithfully(calls, i)
  {
    var before, call := calls[..i], calls[i];
    assert calls[..i + 1][..i] == before && calls[..i + 1][i] == call;
    CommittedRunsAgree(before);
    if CommitsWrite(Run(before), call.op, call.fate) {
      CommitIsFaithfulIff(Run(before), call.op);
    } else {
      OnlyCommitsMoveTables(Run(before), call.op, call.fate);
    }
  }

  lemma {:induction false} FaithfulPrefixReplays(calls: seq<Call>, n: nat)
    requires n <= |calls| && forall i :: 0 <= i < n ==> CommitsFaithfully(calls, i)
    ensures Decode(Run(calls[..n]).tables) == Replay(calls[..n])
  {
    if n > 0 {
      FaithfulPrefixReplays(calls, n - 1);
      ReplayStep(calls, n - 1);
    } else {
      assert calls[..0] == [];
    }
  }

  /** The tables always hold the committed operations and nothing else exactly when every committed auth write found
      the cached auth field it rewrites to be the stored one. */
  lemma TablesReplayIff(calls: seq<Call>)
    ensures AlwaysReplays(calls) <==> forall i :: 0 <= i < |calls| ==> CommitsFaithfully(calls, i)
  {
    if forall i :: 0 <= i < |calls| ==> CommitsFaithfully(calls, i) {
      forall n | 0 <= n <= |calls| ensures Decode(Run(calls[..n]).tables) == Replay(calls[..n]) {
        FaithfulPrefixReplays(calls, n);
      }
    }
    if AlwaysReplays(calls) {
      forall i | 0 <= i < |calls| ensures CommitsFaithfully(calls, i) {
        ReplayStep(calls, i);
      }
    }
  }

  /** No auth write was committed while an undone write of the other auth field was open. */
  predicate CommitsAreClean(calls: seq<Call>) {
    forall i :: 0 <= i < |calls| && CommitsWrite(Run(calls[..i]), calls[i].op, calls[i].fate) ==>
      && (calls[i].op.SetInitialized? ==> !OpenUndone(calls[..i], Hash))
      && (calls[i].op.SavePasswordHash? ==> !OpenUndone(calls[..i], Initialized))
  }

  /** That is so, in particular, as long as undone auth writes are cleared by a lock before the next one commits,
      however many other writes were undone. */
  lemma TablesReplayCommits(calls: seq<Call>)
    requires CommitsAreClean(calls)
    ensures AlwaysReplays(calls) && Decode(Run(calls).tables) == Replay(calls)
  {
    forall i | 0 <= i < |calls| ensures CommitsFaithfully(calls, i) {
      EveryHistoryExplains(calls[..i]);
    }
    TablesReplayIff(calls);
    assert calls[..|calls|] == calls;
  }

  lemma OnlyCommitsMoveTables(s: Store, op: Op, fate: Fate)
    requires !CommitsWrite(s, op, fate)
    ensures Step(s, op, fate).tables == s.tables
  {
  }

  // ---------------------------------------------------------------- the store itself

  /** What an unlock finds: a key and a mounted volume, how that is mounted, and rows that can be read. */
  datatype Opening = Opening(keyAndVolume: bool, mountReadOnly: bool, readable: bool)

  class SqliteControlStore {
    var tables: Tables  // durable
    var cache: Cache
    var loaded: bool
    var readOnly: bool

    ghost function View(): Store
      reads this
    {
      Store(tables, cache, loaded, readOnly)
    }

    ghost predicate Valid()
      reads this
    {
      RevisionAgrees(View()) && Encoded(tables) && (!loaded ==> cache == EMPTY_CACHE)
    }

    constructor ()
      ensures Valid() && View() == FRESH
    {
      tables, cache, loaded, readOnly := MIGRATED, EMPTY_CACHE, false, false;
    }

    method Lock()
      requires Valid()
      modifies this
      ensures Valid() && View() == Step(old(View()), Op.Lock, Commits)
    {
      loaded := false;
      cache := EMPTY_CACHE;
      readOnly := false;
    }

    /** Key, volume, database and rows must all be there; anything missing leaves the store locked. */
    method Unlock(env: Opening) returns (ok: bool)
      requires Valid()
      modifies this
      ensures Valid() && View() == Step(old(View()), Op.Unlock(ok, if env.keyAndVolume then env.mountReadOnly else old(readOnly)), Commits)
      ensures ok <==> old(loaded) || (env.keyAndVolume && env.readable)
      ensures loaded <==> ok
    {
      if loaded {
        return true;
      }
      if !env.keyAndVolume {
        return false;
      }
      readOnly := env.mountReadOnly;
      if !env.readable {
        return false;
      }
      var apps := LoadApps();
      cache := Cache(Decode(tables).(apps := apps), tables.revision, tables.checksum);
      loaded := true;
      ok := true;
    }

    method LoadApps() returns (apps: map<string, AppRecord>)
      ensures apps == tables.apps
    {
      apps := map[];
      var rest := tables.apps.Keys;
      while exists n :: n in rest
        invariant rest <= tables.apps.Keys
        invariant apps == tables.apps - rest
        decreases rest
      {
        var n :| n in rest;
        apps := apps[n := tables.apps[n]];
        rest := rest - {n};
      }
    }

    /** One transaction; the cache is changed on the way and not restored when the transaction fails. */
    method WithWrite(m: Mutation, fate: Fate) returns (ok: bool)
      requires Valid()
      modifies this`tables, this`cache
      ensures Valid() && View() == Write(old(View()), m, fate)
      ensures ok <==> Writable(old(View())) && fate.Commits?
    {
      if !loaded || readOnly || fate == NotBegun {
        return false;
      }
      var tx := OnTables(tables, cache.content, m);
      if m.Staleness? || fate != ExecFails {
        cache := cache.(content := OnCache(cache.content, m));
      }
      if fate == ExecFails {
        return false;
      }
      var revision := cache.revision + 1;
      var checksum := DigestOf(cache.content, revision);
      tx := tx.(revision := revision, checksum := checksum);
      if fate == RolledBack {
        return false;
      }
      tables := tx;
      cache := cache.(revision := revision, checksum := checksum);
      return true;
    }

    method SetInitialized(fate: Fate) returns (ok: bool)
      requires Valid()
      modifies this`tables, this`cache
      ensures Valid() && View() == Step(old(View()), Op.SetInitialized, fate)
      ensures ok <==> Acknowledged(old(View()), Op.SetInitialized, fate)
    {
      if !loaded || readOnly || fate == NotBegun {
        return false;
      }
      if cache.content.initialized {
        return true;
      }
      ok := WithWrite(AuthState(true, None), fate);
    }

    method SavePasswordHash(hash: string, fate: Fate) returns (ok: bool)
      requires Valid()
      modifies this`tables, this`cache
      ensures Valid() && View() == Step(old(View()), Op.SavePasswordHash(hash), fate)
      ensures ok <==> Acknowledged(old(View()), Op.SavePasswordHash(hash), fate)
    {
      ok := WithWrite(AuthState(cache.content.initialized, Some(hash)), fate);
    }

    method UpdateStaleness(update: StalenessUpdate, fate: Fate) returns (ok: bool)
      requires Valid()
      modifies this`tables, this`cache
      ensures Valid() && View() == Step(old(View()), Op.UpdateStaleness(update), fate)
      ensures ok <==> Acknowledged(old(View()), Op.UpdateStaleness(update), fate)
    {
      if !loaded || readOnly || fate == NotBegun {
        return false;
      }
      if update == NO_UPDATE {
        return true;
      }
      ok := WithWrite(Staleness(update), fate);
    }

    method SaveConfig(payload: seq<int>, fate: Fate) returns (ok: bool)
      requires Valid()
      modifies this`tables, this`cache
      ensures Valid() && View() == Step(old(View()), Op.SaveConfig(payload), fate)
      ensures ok <==> Acknowledged(old(View()), Op.SaveConfig(payload), fate)
    {
      ok := WithWrite(Remote(payload), fate);
    }

    method UpsertApp(record: AppRecord, fate: Fate) returns (ok: bool)
      requires Valid()
      modifies this`tables, this`cache
      ensures Valid() && View() == Step(old(View()), Op.UpsertApp(record), fate)
      ensures ok <==> Acknowledged(old(View()), Op.UpsertApp(record), fate)
    {
      if record.name == "" {
        return false;
      }
      ok := WithWrite(App(record), fate);
    }
  }
}
