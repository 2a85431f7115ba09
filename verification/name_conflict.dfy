/** mDNS name conflicts: packet handlers and resolver goroutines racing on two mutexes. */
module NameConflict {
  import opened Common

  /** Where a handler stands with the first answer it has not finished. */
  datatype Phase =
    | Reading    // about to read the advertised name
    | Reporting  // the answer is a foreign claim to that name; about to take the detector's lock
    | Spawning   // raised the conflict flag; about to start a resolver

  datatype Handler = Handler(source: string, todo: seq<string>, phase: Phase)

  datatype State = State(
    name: string,                // the advertised name
    detected: bool,              // the conflict flag
    sources: map<string, nat>,   // queries counted per conflicting host
    attempts: nat,
    suffix: string,
    handlers: map<int, Handler>, // packet handlers under way
    pending: nat,                // resolvers started and not yet run
    started: nat,                // history: resolvers ever started
    raised: nat,                 // history: times the flag went from false to true
    renames: nat)                // history: times the name changed

  /** What the process is called before and after a conflict. */
  datatype Names = Names(base: string, machineID: string) {
    function Resolved(): string {
      base + "-" + machineID
    }
  }

  function Init(ns: Names): State {
    State(ns.base, false, map[], 0, "", map[], 0, 0, 0, 0)
  }

  predicate EqualFold(a: string, b: string) {
    |a| == |b| && forall i :: 0 <= i < |a| ==> LowerCase(a[i]) == LowerCase(b[i])
  }

  datatype Action =
    | Arrive(h: int, source: string, answers: seq<string>)
    | Read(h: int, isSelf: bool)
    | Report(h: int)
    | Spawn(h: int)
    | Finish(h: int)
    | Resolve
    | ResolveAtStartup

  predicate In(s: State, h: int, p: Phase) {
    h in s.handlers && s.handlers[h].phase == p && s.handlers[h].todo != []
  }

  predicate Enabled(s: State, a: Action) {
    match a
    case Arrive(h, _, _) => h !in s.handlers
    case Read(h, _) => In(s, h, Reading)
    case Report(h) => In(s, h, Reporting)
    case Spawn(h) => In(s, h, Spawning)
    case Finish(h) => h in s.handlers && s.handlers[h].todo == [] && s.handlers[h].phase == Reading
    case Resolve => s.pending > 0
    case ResolveAtStartup => true
  }

  function Move(s: State, h: int, p: Phase): State
    requires h in s.handlers
  {
    s.(handlers := s.handlers[h := s.handlers[h].(phase := p)])
  }

  function NextAnswer(s: State, h: int): State
    requires h in s.handlers && s.handlers[h].todo != []
  {
    s.(handlers := s.handlers[h := s.handlers[h].(phase := Reading, todo := s.handlers[h].todo[1..])])
  }

  function Counted(sources: map<string, nat>, source: string): map<string, nat> {
    sources[source := 1 + if source in sources then sources[source] else 0]
  }

  /** Under both locks: switch to the deterministic name once, and clear the conflict. */
  function ResolveNow(ns: Names, s: State): State {
    var tried := s.(attempts := s.attempts + 1);
    if s.name == ns.Resolved() then tried
    else tried.(name := ns.Resolved(), suffix := ns.machineID, renames := s.renames + 1, detected := false, sources := map[])
  }

  function Apply(ns: Names, s: State, a: Action): State
    requires Enabled(s, a)
  {
    match a
    case Arrive(h, source, answers) => s.(handlers := s.handlers[h := Handler(source, answers, Reading)])
    case Read(h, isSelf) =>
      if EqualFold(s.handlers[h].todo[0], s.name + ".local.") && !isSelf then Move(s, h, Reporting) else NextAnswer(s, h)
    case Report(h) =>
      var counted := s.(sources := Counted(s.sources, s.handlers[h].source));
      if s.detected then NextAnswer(counted, h)
      else Move(counted, h, Spawning).(detected := true, raised := s.raised + 1)
    case Spawn(h) => NextAnswer(s, h).(pending := s.pending + 1, started := s.started + 1)
    case Finish(h) => s.(handlers := s.handlers - {h})
    case Resolve => ResolveNow(ns, s.(pending := s.pending - 1))
    case ResolveAtStartup => ResolveNow(ns, s)
  }

  /** Handlers that raised the flag and have not started their resolver yet. */
  function Spawners(s: State): set<int> {
    set h | h in s.handlers && s.handlers[h].phase == Spawning
  }

  ghost predicate Inv(ns: Names, s: State) {
    && (s.name == ns.base || s.name == ns.Resolved())
    && s.renames == (if s.name == ns.base then 0 else 1)
    && s.pending <= s.started
    && s.started + |Spawners(s)| == s.raised
    && (if s.name == ns.base then s.raised == (if s.detected then 1 else 0) && s.pending == s.started
        else s.raised <= (if s.detected then 2 else 1))
    && s.suffix == (if s.name == ns.base then "" else ns.machineID)
    && (!s.detected ==> s.sources == map[])
    && (forall h :: h in s.handlers && s.handlers[h].phase != Reading ==> s.handlers[h].todo != [])
  }

  lemma NamesDiffer(ns: Names)
    ensures ns.base != ns.Resolved()
  {
  }

  /** One handler changing phase moves it into or out of the spawners, and nobody else. */
  lemma SpawnersAfter(s: State, t: State, h: int)
    requires h in s.handlers && h in t.handlers
    requires t.handlers == s.handlers[h := t.handlers[h]]
    ensures Spawners(t) == if t.handlers[h].phase == Spawning then Spawners(s) + {h} else Spawners(s) - {h}
  {
  }

  lemma ResolveKeepsInv(ns: Names, s: State)
    requires Inv(ns, s) || (s.pending < s.started && Inv(ns, s.(pending := s.pending + 1)))
    ensures Inv(ns, ResolveNow(ns, s))
  {
  }

  lemma ReportKeepsInv(ns: Names, s: State, h: int)
    requires Inv(ns, s) && Enabled(s, Report(h))
    ensures Inv(ns, Apply(ns, s, Report(h)))
  {
    SpawnersAfter(s, Apply(ns, s, Report(h)), h);
  }

  lemma SpawnKeepsInv(ns: Names, s: State, h: int)
    requires Inv(ns, s) && Enabled(s, Spawn(h))
    ensures Inv(ns, Apply(ns, s, Spawn(h)))
  {
    SpawnersAfter(s, Apply(ns, s, Spawn(h)), h);
  }

  /** Handlers may move freely as long as none starts or stops spawning. */
  lemma MoveKeepsInv(ns: Names, s: State, handlers: map<int, Handler>)
    requires Inv(ns, s) && Spawners(s.(handlers := handlers)) == Spawners(s)
    requires forall h :: h in handlers && handlers[h].phase != Reading ==> handlers[h].todo != []
    ensures Inv(ns, s.(handlers := handlers))
  {
  }

  /** An answer that claims our name, from somebody else, is to be reported; any other is passed over. */
  lemma ReadMoves(ns: Names, s: State, h: int, isSelf: bool)
    requires Enabled(s, Read(h, isSelf))
    ensures
      var t := Apply(ns, s, Read(h, isSelf));
      && t == s.(handlers := t.handlers) && h in t.handlers && t.handlers == s.handlers[h := t.handlers[h]]
      && t.handlers[h].phase != Spawning && (t.handlers[h].phase != Reading ==> t.handlers[h].todo == s.handlers[h].todo)
  {
  }

  lemma ReadKeepsInv(ns: Names, s: State, h: int, isSelf: bool)
    requires Inv(ns, s) && Enabled(s, Read(h, isSelf))
    ensures Inv(ns, Apply(ns, s, Read(h, isSelf)))
  {
    var t := Apply(ns, s, Read(h, isSelf));
    ReadMoves(ns, s, h, isSelf);
    SpawnersAfter(s, t, h);
    MoveKeepsInv(ns, s, t.handlers);
  }

  lemma StepKeepsInv(ns: Names, s: State, a: Action)
    requires Inv(ns, s) && Enabled(s, a)
    ensures Inv(ns, Apply(ns, s, a))
  {
    match a {
      case Arrive(h, source, answers) => assert Spawners(Apply(ns, s, a)) == Spawners(s);
      case Read(h, isSelf) => ReadKeepsInv(ns, s, h, isSelf);
      case Report(h) => ReportKeepsInv(ns, s, h);
      case Spawn(h) => SpawnKeepsInv(ns, s, h);
      case Finish(h) => assert Spawners(Apply(ns, s, a)) == Spawners(s);
      case Resolve => ResolveKeepsInv(ns, s.(pending := s.pending - 1));
      case ResolveAtStartup => ResolveKeepsInv(ns, s);
    }
  }

  /** The actions can be performed one after the other from s. */
  predicate Possible(ns: Names, s: State, actions: seq<Action>)
    decreases |actions|
  {
    actions == [] || (Enabled(s, actions[0]) && Possible(ns, Apply(ns, s, actions[0]), actions[1..]))
  }

  function Run(ns: Names, s: State, actions: seq<Action>): State
    requires Possible(ns, s, actions)
    decreases |actions|
  {
    if actions == [] then s else Run(ns, Apply(ns, s, actions[0]), actions[1..])
  }

  lemma {:induction false} RunKeepsInv(ns: Names, s: State, actions: seq<Action>)
    requires Inv(ns, s) && Possible(ns, s, actions)
    ensures Inv(ns, Run(ns, s, actions))
    ensures s.name == ns.Resolved() ==> Run(ns, s, actions).name == s.name
    ensures s.name == ns.Resolved() && s.detected ==> Run(ns, s, actions).detected
    decreases |actions|
  {
    if actions != [] {
      StepKeepsInv(ns, s, actions[0]);
      RunKeepsInv(ns, Apply(ns, s, actions[0]), actions[1..]);
    }
  }

  /** In every interleaving the name changes at most once, and at most two resolvers are ever started. */
  lemma EveryInterleavingSettles(ns: Names, actions: seq<Action>)
    requires Possible(ns, Init(ns), actions)
    ensures
      var t := Run(ns, Init(ns), actions);
      && t.renames <= 1 && t.started <= 2
      && t.name == (if t.renames == 0 then ns.base else ns.Resolved())
      && t.suffix == (if t.renames == 0 then "" else ns.machineID)
      && (!t.detected ==> t.sources == map[])
  {
    RunKeepsInv(ns, Init(ns), actions);
  }

  /** Once renamed, always renamed; and a conflict raised after that is never cleared again. */
  lemma RenameIsFinal(ns: Names, before: seq<Action>, after: seq<Action>)
    requires Possible(ns, Init(ns), before) && Possible(ns, Run(ns, Init(ns), before), after)
    ensures
      var s := Run(ns, Init(ns), before);
      var t := Run(ns, s, after);
      s.name == ns.Resolved() ==> t.name == ns.Resolved() && (s.detected ==> t.detected)
  {
    RunKeepsInv(ns, Init(ns), before);
    RunKeepsInv(ns, Run(ns, Init(ns), before), after);
  }

  /** No lost conflict: a raised flag under the base name always has a resolver on its way. */
  lemma RaisedConflictHasAResolver(ns: Names, actions: seq<Action>)
    requires Possible(ns, Init(ns), actions)
    ensures
      var t := Run(ns, Init(ns), actions);
      t.name == ns.base && t.detected ==> t.pending > 0 || exists h :: In(t, h, Spawning)
  {
    RunKeepsInv(ns, Init(ns), actions);
    var t := Run(ns, Init(ns), actions);
    if !exists h :: In(t, h, Spawning) {
      forall h ensures h !in Spawners(t) {
        assert !In(t, h, Spawning);
      }
      assert Spawners(t) == {};
    }
  }

  /** Reports from a source since its conflicts were last cleared, given how many there were before. */
  function ReportsSince(ns: Names, s: State, actions: seq<Action>, source: string, before: nat): nat
    requires Possible(ns, s, actions)
    decreases |actions|
  {
    if actions == [] then before
    else
      var a := actions[0];
      var now :=
        if a.Report? && s.handlers[a.h].source == source then before + 1
        else if (a.Resolve? || a.ResolveAtStartup?) && s.name != ns.base + "-" + ns.machineID then 0
        else before;
      ReportsSince(ns, Apply(ns, s, a), actions[1..], source, now)
  }

  function CountOf(sources: map<string, nat>, source: string): nat {
    if source in sources then sources[source] else 0
  }

  /** Over every interleaving each source is counted once per report since the last rename. */
  lemma {:induction false} SourcesCountReports(ns: Names, s: State, actions: seq<Action>, source: string)
    requires Possible(ns, s, actions)
    ensures CountOf(Run(ns, s, actions).sources, source) == ReportsSince(ns, s, actions, source, CountOf(s.sources, source))
    decreases |actions|
  {
    if actions != [] {
      SourcesCountReports(ns, Apply(ns, s, actions[0]), actions[1..], source);
    }
  }

  function ResolverRuns(actions: seq<Action>): nat
    decreases |actions|
  {
    if actions == [] then 0
    else (if actions[0].Resolve? || actions[0].ResolveAtStartup? then 1 else 0) + ResolverRuns(actions[1..])
  }

  /** Every resolver that runs is counted as an attempt, also one that finds nothing to do. */
  lemma {:induction false} AttemptsCountResolvers(ns: Names, s: State, actions: seq<Action>)
    requires Possible(ns, s, actions)
    ensures Run(ns, s, actions).attempts == s.attempts + ResolverRuns(actions)
    decreases |actions|
  {
    if actions != [] {
      AttemptsCountResolvers(ns, Apply(ns, s, actions[0]), actions[1..]);
    }
  }

  /** Nothing has been raised and nothing is about to be. */
  ghost predicate Quiet(s: State) {
    && !s.detected && s.sources == map[] && s.raised == 0 && s.started == 0 && s.pending == 0
    && forall h :: h in s.handlers ==> s.handlers[h].phase == Reading
  }

  /** Our own responses are never taken for a conflict, whatever they claim. */
  lemma {:induction false} SelfResponsesRaiseNothing(ns: Names, s: State, actions: seq<Action>)
    requires Quiet(s) && Possible(ns, s, actions)
    requires forall i :: 0 <= i < |actions| && actions[i].Read? ==> actions[i].isSelf
    ensures Quiet(Run(ns, s, actions))
    decreases |actions|
  {
    if actions != [] {
      SelfResponsesRaiseNothing(ns, Apply(ns, s, actions[0]), actions[1..]);
    }
  }

  /** The answer is about a name we have or may take. */
  predicate Concerns(ns: Names, answer: string) {
    EqualFold(answer, ns.base + ".local.") || EqualFold(answer, ns.Resolved() + ".local.")
  }

  ghost predicate Unconcerned(ns: Names, s: State) {
    && Quiet(s) && (s.name == ns.base || s.name == ns.Resolved())
    && forall h, i :: h in s.handlers && 0 <= i < |s.handlers[h].todo| ==> !Concerns(ns, s.handlers[h].todo[i])
  }

  /** Nor are answers about other names, whoever sends them. */
  lemma {:induction false} OtherNamesRaiseNothing(ns: Names, s: State, actions: seq<Action>)
    requires Unconcerned(ns, s) && Possible(ns, s, actions)
    requires forall i, j :: 0 <= i < |actions| && actions[i].Arrive? && 0 <= j < |actions[i].answers| ==> !Concerns(ns, actions[i].answers[j])
    ensures Unconcerned(ns, Run(ns, s, actions))
    decreases |actions|
  {
    if actions != [] {
      UnconcernedStep(ns, s, actions[0]);
      OtherNamesRaiseNothing(ns, Apply(ns, s, actions[0]), actions[1..]);
    }
  }

  lemma UnconcernedStep(ns: Names, s: State, a: Action)
    requires Unconcerned(ns, s) && Enabled(s, a)
    requires a.Arrive? ==> forall j :: 0 <= j < |a.answers| ==> !Concerns(ns, a.answers[j])
    ensures Unconcerned(ns, Apply(ns, s, a))
  {
  }

  /** The steps of one handler that sees a single foreign claim to the current name. */
  function Claim(s: State, h: int): seq<Action> {
    [Arrive(h, "host", [s.name + ".local."]), Read(h, false), Report(h), Spawn(h)]
  }

  lemma ClaimStartsAResolver(ns: Names, s: State, h: int)
    requires h !in s.handlers && !s.detected
    ensures Possible(ns, s, Claim(s, h))
    ensures
      var t := Run(ns, s, Claim(s, h));
      t.started == s.started + 1 && t.pending == s.pending + 1 && t.name == s.name && t.handlers.Keys == s.handlers.Keys + {h}
  {
    var actions := Claim(s, h);
    var s1 := Apply(ns, s, actions[0]);
    var s2 := Apply(ns, s1, actions[1]);
    assert s2.handlers[h].phase == Reporting;
    var s3 := Apply(ns, s2, actions[2]);
    var s4 := Apply(ns, s3, actions[3]);
    Prepend(ns, s3, actions[3], [], s4);
    Prepend(ns, s2, actions[2], [actions[3]], s4);
    Prepend(ns, s1, actions[1], [actions[2], actions[3]], s4);
    Prepend(ns, s, actions[0], [actions[1], actions[2], actions[3]], s4);
  }

  lemma Prepend(ns: Names, s: State, a: Action, rest: seq<Action>, end: State)
    requires Enabled(s, a) && Possible(ns, Apply(ns, s, a), rest) && Run(ns, Apply(ns, s, a), rest) == end
    ensures Possible(ns, s, [a] + rest) && Run(ns, s, [a] + rest) == end
  {
  }

  lemma {:induction false} RunAppend(ns: Names, s: State, xs: seq<Action>, ys: seq<Action>)
    requires Possible(ns, s, xs) && Possible(ns, Run(ns, s, xs), ys)
    ensures Possible(ns, s, xs + ys) && Run(ns, s, xs + ys) == Run(ns, Run(ns, s, xs), ys)
    decreases |xs|
  {
    if xs == [] {
      assert xs + ys == ys;
    } else {
      RunAppend(ns, Apply(ns, s, xs[0]), xs[1..], ys);
      assert (xs + ys)[1..] == xs[1..] + ys;
    }
  }

  /** The bound of two is met: a conflict, the rename, and one more conflict under the new name. */
  lemma TwoResolversCanHappen(ns: Names) returns (actions: seq<Action>)
    ensures Possible(ns, Init(ns), actions) && Run(ns, Init(ns), actions).started == 2
  {
    NamesDiffer(ns);
    var s := Init(ns);
    ClaimStartsAResolver(ns, s, 0);
    var s1 := Run(ns, s, Claim(s, 0));
    var s2 := Apply(ns, s1, Resolve);
    Prepend(ns, s1, Resolve, [], s2);
    RunAppend(ns, s, Claim(s, 0), [Resolve]);
    ClaimStartsAResolver(ns, s2, 1);
    RunAppend(ns, s, Claim(s, 0) + [Resolve], Claim(s2, 1));
    actions := Claim(s, 0) + [Resolve] + Claim(s2, 1);
  }
}
