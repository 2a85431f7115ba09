/** Installing an app: allocate ports, create the container, retry on a host-port conflict. */
module Install {
  import opened Ports
  import opened Registry
  import opened RegistryRuns
  import opened ServiceManagers

  const MAX_INSTALL_PORT_RETRIES := 5

  /** What the container runtime and the app store may answer. */
  datatype CreateOutcome = Stored | StoreFailed | SpecFailed | CreateFailed | PortInUse(port: int)

  datatype Outcome = Installed(endpoints: seq<Endpoint>) | NoPorts | Exhausted | Failed

  /** s2 is s1 with the reserved host ports gone and, after a success, the app published. */
  ghost predicate Accounts(s1: State, s2: State, app: string, published: seq<Endpoint>, reserved: set<int>) {
    && s2.registry == Enroll(s1.registry, app, published)
    && s2.pools.host.used == s1.pools.host.used + reserved + HostsOf(published)
    && s2.pools.public.used == s1.pools.public.used + PublicsOf(published)
  }

  function Published(r: Outcome): seq<Endpoint> {
    if r.Installed? then r.endpoints else []
  }

  /** The host ports to avoid after an answer: the one it names, or all of the attempt's. */
  ghost function Conflicts(reply: CreateOutcome, eps: seq<Endpoint>): set<int> {
    if !reply.PortInUse? then {} else if reply.port > 0 then {reply.port} else HostsOf(eps)
  }

  /** Answers from.. up to ..to were all port conflicts. */
  ghost predicate AllConflicts(runtime: nat -> CreateOutcome, from: nat, to: nat) {
    forall i :: from <= i < to ==> runtime(i).PortInUse?
  }

  /** Of the attempts that asked the runtime all but the last met a conflict. The installation stops at the first other
      answer, at the fifth attempt, or when an attempt finds no ports. */
  ghost predicate StopsRightly(runtime: nat -> CreateOutcome, attempt: nat, asked: nat, r: Outcome) {
    && (attempt + asked <= 5 || (attempt > 5 && asked == 0))
    && (asked > 0 ==> AllConflicts(runtime, attempt, attempt + asked - 1))
    && (r.Installed? <==> asked > 0 && runtime(attempt + asked - 1).Stored?)
    && (r.Exhausted? <==> attempt + asked >= 5 && AllConflicts(runtime, attempt, attempt + asked))
    && (r.NoPorts? <==> attempt + asked < 5 && AllConflicts(runtime, attempt, attempt + asked))
  }

  lemma StopsOneLater(runtime: nat -> CreateOutcome, attempt: nat, later: nat, r: Outcome)
    requires attempt < 5 && runtime(attempt).PortInUse? && StopsRightly(runtime, attempt + 1, later, r)
    ensures StopsRightly(runtime, attempt, 1 + later, r)
  {
    assert AllConflicts(runtime, attempt, attempt + 1 + later) <==> AllConflicts(runtime, attempt + 1, attempt + 1 + later);
    assert later > 0 ==> AllConflicts(runtime, attempt, attempt + later);
  }

  /** Only conflicting ports were reserved, and every port of ours that an answer named is in use. */
  ghost predicate ReservesRightly(runtime: nat -> CreateOutcome, attempt: nat, asked: nat, reserved: set<int>, used: set<int>) {
    && (forall p :: p in reserved ==> exists i :: attempt <= i < attempt + asked && MayReserve(runtime(i), p))
    && (forall i :: attempt <= i < attempt + asked ==> Avoided(runtime(i), used))
  }

  lemma ReservesOneLater(runtime: nat -> CreateOutcome, attempt: nat, later: nat, first: set<int>, more: set<int>, used: set<int>)
    requires ReservesRightly(runtime, attempt + 1, later, more, used) && Avoided(runtime(attempt), used)
    requires forall p :: p in first ==> MayReserve(runtime(attempt), p)
    ensures ReservesRightly(runtime, attempt, 1 + later, first + more, used)
  {
    forall p | p in first + more ensures exists i :: attempt <= i < attempt + 1 + later && MayReserve(runtime(i), p) {
      if p in more {
        var i :| attempt + 1 <= i < attempt + 1 + later && MayReserve(runtime(i), p);
      } else {
        assert MayReserve(runtime(attempt), p);
      }
    }
  }

  /** What an allocation from s hands out. */
  ghost function HandedOut(s: State, app: string, ls: seq<Listener>): seq<Endpoint> {
    PairCount(s.pools, |ls|);
    EndpointsOf(app, ls, TakePairs(s.pools, |ls|).pairs)
  }

  /** Attempt i gets the answer runtime(i), if it gets as far as asking. Conflicts are retried, five attempts in all; the
      last attempt starts from the state last, which differs from the first one by the reserved ports alone. */
  method InstallWithRetries(svc: ServiceManager, app: string, ls: seq<Listener>, attempt: nat, runtime: nat -> CreateOutcome)
    returns (r: Outcome, ghost asked: nat, ghost reserved: set<int>, ghost last: State)
    requires svc.Valid()
    modifies svc, svc.allocator
    ensures svc.Valid() && Installs(old(svc.Model()), svc.Model(), app, ls, attempt, runtime, r, asked, reserved, last)
    decreases MAX_INSTALL_PORT_RETRIES - attempt
  {
    last, asked, reserved := svc.Model(), 0, {};
    if attempt >= MAX_INSTALL_PORT_RETRIES {
      NoAttemptLeft(last, app, ls, attempt, runtime);
      return Exhausted, 0, {}, last;
    }
    ghost var s0 := svc.Model();
    r, reserved := TryInstall(svc, app, ls, runtime(attempt));
    ghost var s1 := svc.Model();
    if r.NoPorts? || !runtime(attempt).PortInUse? {
      asked := if r.NoPorts? then 0 else 1;
      LastAttempt(s0, s1, app, ls, attempt, runtime, r, reserved);
      return;
    }
    ghost var later, more;
    r, later, more, last := InstallWithRetries(svc, app, ls, attempt + 1, runtime);
    RetriedAttempt(s0, s1, svc.Model(), app, ls, attempt, runtime, r, reserved, later, more, last);
    asked, reserved := 1 + later, reserved + more;
  }

  /** A whole installation from s0 to s1, starting with the given attempt. */
  ghost predicate Installs(s0: State, s1: State, app: string, ls: seq<Listener>, attempt: nat, runtime: nat -> CreateOutcome,
                           r: Outcome, asked: nat, reserved: set<int>, last: State) {
    && StopsRightly(runtime, attempt, asked, r)
    && ReservesRightly(runtime, attempt, asked, reserved, s1.pools.host.used)
    && Ends(s0, s1, app, ls, r, reserved, last)
  }

  /** One attempt from s0 to s1: it asks the runtime iff there are ports, and on a conflict reserves what conflicted. */
  ghost predicate Attempts(s0: State, s1: State, app: string, ls: seq<Listener>, reply: CreateOutcome, r: Outcome, reserved: set<int>) {
    && !r.Exhausted? && Ends(s0, s1, app, ls, r, reserved, s0)
    && (r.NoPorts? <==> |HandedOut(s0, app, ls)| < |ls|)
    && (r.Installed? <==> !r.NoPorts? && reply.Stored?)
    && (r.Failed? ==> app !in s1.registry) && (!r.Failed? ==> reserved == {})
    && (r.Failed? ==>
          && reserved <= Conflicts(reply, HandedOut(s0, app, ls))
          && forall p :: p in Conflicts(reply, HandedOut(s0, app, ls)) && HOST_RANGE.Contains(p) ==> p in s1.pools.host.used)
  }

  lemma NoAttemptLeft(s: State, app: string, ls: seq<Listener>, attempt: nat, runtime: nat -> CreateOutcome)
    requires attempt >= 5
    ensures Installs(s, s, app, ls, attempt, runtime, Exhausted, 0, {}, s)
  {
    assert HostsOf([]) == {} && PublicsOf([]) == {};
  }

  lemma LastAttempt(s0: State, s1: State, app: string, ls: seq<Listener>, attempt: nat, runtime: nat -> CreateOutcome,
                    r: Outcome, reserved: set<int>)
    requires attempt < 5 && Attempts(s0, s1, app, ls, runtime(attempt), r, reserved)
    requires r.NoPorts? || !runtime(attempt).PortInUse?
    ensures Installs(s0, s1, app, ls, attempt, runtime, r, if r.NoPorts? then 0 else 1, reserved, s0)
  {
  }

  lemma RetriedAttempt(s0: State, s1: State, s2: State, app: string, ls: seq<Listener>, attempt: nat,
                       runtime: nat -> CreateOutcome, r: Outcome, first: set<int>, later: nat, more: set<int>, last: State)
    requires attempt < 5 && Attempts(s0, s1, app, ls, runtime(attempt), Failed, first) && runtime(attempt).PortInUse?
    requires Installs(s1, s2, app, ls, attempt + 1, runtime, r, later, more, last)
    ensures Installs(s0, s2, app, ls, attempt, runtime, r, 1 + later, first + more, last)
  {
    StopsOneLater(runtime, attempt, later, r);
    EndsOneLater(s0, s1, s2, app, ls, r, first, more, last);
    ReservesOneLater(runtime, attempt, later, first, more, s2.pools.host.used);
  }

  /** An answer after which the port may be reserved. */
  ghost predicate MayReserve(reply: CreateOutcome, p: int) {
    reply.PortInUse? && (reply.port == p || reply.port <= 0)
  }

  /** A port the answer names is in use if it is one of ours. */
  ghost predicate Avoided(reply: CreateOutcome, used: set<int>) {
    reply.PortInUse? && reply.port > 0 && HOST_RANGE.Contains(reply.port) ==> reply.port in used
  }

  /** The endpoints that an allocation from s hands out when ports suffice. */
  ghost predicate Allocated(s: State, app: string, ls: seq<Listener>, eps: seq<Endpoint>) {
    |HandedOut(s, app, ls)| == |ls| && eps == HandedOut(s, app, ls)
  }

  /** How an installation that started in s0 may leave the manager: reserved ports are pinned and not published; what is
      published or left over comes from allocating in the state last; a new app with distinct names accounts for all. */
  ghost predicate Ends(s0: State, s1: State, app: string, ls: seq<Listener>, r: Outcome, reserved: set<int>, last: State) {
    && Pinned(s0) <= Pinned(s1) && reserved <= Pinned(s1) && HostsOf(Published(r)) !! reserved + Pinned(s0)
    && (r.NoPorts? ==> |HandedOut(last, app, ls)| < |ls| && s1 == AllocateForApp(last, app, ls))
    && (r.Installed? ==> Allocated(last, app, ls, r.endpoints) && s1 == AllocateForApp(last, app, ls))
    && (!r.NoPorts? && !r.Installed? ==> app !in s1.registry || s1 == s0)
    && (app !in s0.registry ==> s0.pools.host.used <= s1.pools.host.used)
    && (DistinctNames(ls) && app !in s0.registry ==>
          Accounts(s0, if r.NoPorts? then last else s1, app, Published(r), reserved))
  }

  /** A failed attempt from s0 to s1, then an installation from there. */
  lemma EndsOneLater(s0: State, s1: State, s2: State, app: string, ls: seq<Listener>, r: Outcome,
                     first: set<int>, more: set<int>, last: State)
    requires Ends(s0, s1, app, ls, Failed, first, s0) && app !in s1.registry && Ends(s1, s2, app, ls, r, more, last)
    ensures Ends(s0, s2, app, ls, r, first + more, last)
  {
    if DistinctNames(ls) && app !in s0.registry {
      AccountsChain(s0, s1, if r.NoPorts? then last else s2, app, Published(r), first, more);
    }
  }

  lemma AccountsChain(s1: State, s2: State, s3: State, app: string, published: seq<Endpoint>, first: set<int>, more: set<int>)
    requires Accounts(s1, s2, app, [], first) && Accounts(s2, s3, app, published, more)
    ensures Accounts(s1, s3, app, published, first + more)
  {
  }

  /** One attempt: it asks the runtime iff there are ports; on a conflict it reserves what conflicted. */
  method TryInstall(svc: ServiceManager, app: string, ls: seq<Listener>, reply: CreateOutcome)
    returns (r: Outcome, ghost reserved: set<int>)
    requires svc.Valid()
    modifies svc, svc.allocator
    ensures svc.Valid() && Attempts(old(svc.Model()), svc.Model(), app, ls, reply, r, reserved)
  {
    reserved := {};
    ghost var s := svc.Model();
    AllocateKeepsInv(s, app, ls);
    GainedPorts(s.pools, |ls|);
    var endpoints := svc.AllocateForApp(app, ls);
    if endpoints.None? {
      return NoPorts, {};
    }
    AllocatedAccounts(s, app, ls);
    if reply.Stored? {
      return Installed(endpoints.value), {};
    }
    r := Failed;
    reserved := CleanUp(svc, app, ls, endpoints.value, reply, s);
  }

  /** A failed attempt gives its ports back, then takes those that conflicted out of circulation. */
  method CleanUp(svc: ServiceManager, app: string, ls: seq<Listener>, endpoints: seq<Endpoint>, reply: CreateOutcome, ghost s: State)
    returns (ghost reserved: set<int>)
    requires svc.Valid() && Inv(s) && svc.Model() == AllocateForApp(s, app, ls) && |TakePairs(s.pools, |ls|).pairs| == |ls|
    requires endpoints == HandedOut(s, app, ls)
    modifies svc, svc.allocator
    ensures svc.Valid() && Pinned(old(svc.Model())) <= Pinned(svc.Model()) && reserved <= Pinned(svc.Model())
    ensures app !in svc.registry && (app !in s.registry ==> s.pools.host.used <= svc.allocator.host.used)
    ensures reserved <= Conflicts(reply, endpoints)
    ensures forall p :: p in Conflicts(reply, endpoints) && HOST_RANGE.Contains(p) ==> p in svc.allocator.host.used
    ensures DistinctNames(ls) && app !in s.registry ==> Accounts(s, svc.Model(), app, [], reserved)
  {
    GiveBack(svc, app, ls, s);
    if reply.PortInUse? {
      reserved := ReserveConflicts(svc, reply, endpoints);
    } else {
      reserved := {};
    }
  }

  /** Removal of a failed attempt: a new app with distinct names leaves no trace. */
  method GiveBack(svc: ServiceManager, app: string, ls: seq<Listener>, ghost s: State)
    requires svc.Valid() && Inv(s) && svc.Model() == AllocateForApp(s, app, ls) && |HandedOut(s, app, ls)| == |ls|
    modifies svc, svc.allocator
    ensures svc.Valid() && Pinned(old(svc.Model())) <= Pinned(svc.Model())
    ensures app !in svc.registry && (app !in s.registry ==> s.pools.host.used <= svc.allocator.host.used)
    ensures DistinctNames(ls) && app !in s.registry ==> Accounts(s, svc.Model(), app, [], {})
  {
    RemoveKeepsInv(svc.Model(), app);
    AllocateThenRemoveIff(s, app, ls);
    Removed(svc.Model(), app);
    NewHosts(s, app, ls);
    Enrolled(s.registry, app, HandedOut(s, app, ls));
    svc.RemoveApp(app);
  }

  /** The port the runtime named, or every port of the attempt when it named none. */
  method ReserveConflicts(svc: ServiceManager, reply: CreateOutcome, endpoints: seq<Endpoint>) returns (ghost reserved: set<int>)
    requires svc.Valid() && reply.PortInUse?
    modifies svc.allocator
    ensures svc.Valid() && svc.registry == old(svc.registry) && svc.allocator.public == old(svc.allocator.public)
    ensures svc.allocator.host.used == old(svc.allocator.host.used) + reserved
    ensures Pinned(old(svc.Model())) <= Pinned(svc.Model()) && reserved <= Pinned(svc.Model())
    ensures reserved <= Conflicts(reply, endpoints)
    ensures forall p :: p in Conflicts(reply, endpoints) && HOST_RANGE.Contains(p) ==> p in svc.allocator.host.used
  {
    if reply.port > 0 {
      reserved := ReserveAll(svc, [reply.port]);
      assert Conflicts(reply, endpoints) == {reply.port} && [reply.port][0] == reply.port;
      forall p | p in reserved ensures p == reply.port {
        assert p in [reply.port];
      }
    } else {
      var hosts := seq(|endpoints|, i requires 0 <= i < |endpoints| => endpoints[i].hostBind);
      reserved := ReserveAll(svc, hosts);
      assert Conflicts(reply, endpoints) == HostsOf(endpoints);
      forall i | 0 <= i < |endpoints| ensures endpoints[i].hostBind in hosts {
        assert hosts[i] == endpoints[i].hostBind;
      }
      forall p | p in reserved ensures p in HostsOf(endpoints) {
        assert p in hosts;
      }
    }
  }

  /** Takes the ports of failed bindings out of circulation; a port already used is skipped. */
  method ReserveAll(svc: ServiceManager, ports: seq<int>) returns (ghost reserved: set<int>)
    requires svc.Valid()
    modifies svc.allocator
    ensures svc.Valid() && svc.registry == old(svc.registry) && svc.allocator.public == old(svc.allocator.public)
    ensures svc.allocator.host.used == old(svc.allocator.host.used) + reserved
    ensures Pinned(old(svc.Model())) <= Pinned(svc.Model()) && reserved <= Pinned(svc.Model())
    ensures forall p :: p in reserved <==> p in ports && HOST_RANGE.Contains(p) && p !in old(svc.allocator.host.used)
  {
    reserved := {};
    for i := 0 to |ports|
      invariant svc.Valid() && svc.registry == old(svc.registry) && svc.allocator.public == old(svc.allocator.public)
      invariant svc.allocator.host.used == old(svc.allocator.host.used) + reserved
      invariant Pinned(old(svc.Model())) <= Pinned(svc.Model()) && reserved <= Pinned(svc.Model())
      invariant forall p :: p in reserved <==> p in ports[..i] && HOST_RANGE.Contains(p) && p !in old(svc.allocator.host.used)
    {
      ReserveKeepsInv(svc.Model(), ports[i]);
      var ok := svc.ReserveHostPort(ports[i]);
      if ok {
        reserved := reserved + {ports[i]};
      }
    }
  }

  /** A successful allocation publishes endpoints on ports that were free, and accounts for all of them. */
  lemma AllocatedAccounts(s: State, app: string, ls: seq<Listener>)
    requires Inv(s) && |TakePairs(s.pools, |ls|).pairs| == |ls|
    ensures
      var eps := EndpointsOf(app, ls, TakePairs(s.pools, |ls|).pairs);
      && Accounts(s, AllocateForApp(s, app, ls), app, eps, {})
      && HostsOf(eps) !! s.pools.host.used
  {
    var r := TakePairs(s.pools, |ls|);
    PortsOfEndpoints(app, ls, r.pairs);
    GainedPorts(s.pools, |ls|);
    assert s.pools.host.used + {} == s.pools.host.used;
  }

  lemma GainedPorts(ps: Pools, n: nat)
    requires ps.WellFormed()
    ensures
      var r := TakePairs(ps, n);
      && r.pools.host.used == ps.host.used + Hosts(r.pairs) && r.pools.public.used == ps.public.used + Publics(r.pairs)
      && Hosts(r.pairs) !! ps.host.used
  {
    TakePairsSound(ps, n);
  }
}
