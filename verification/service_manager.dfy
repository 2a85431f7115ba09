/** The imperative service manager, proved against the registry state machine. */
module ServiceManagers {
  import opened Common
  import opened Ports
  import opened Registry
  import opened RegistryRuns

  datatype ReconcileResult = ReconcileResult(endpoints: seq<Endpoint>, added: seq<Endpoint>, removed: seq<Endpoint>,
                                             guestPortChanged: seq<Change>, proxyOnlyChanged: seq<Endpoint>)

  /** eps lists the entries of m with the given names, each once. */
  ghost predicate ListsExactly(eps: seq<Endpoint>, m: Entries, names: set<string>) {
    && NamesOf(eps) == names
    && (forall i, j :: 0 <= i < j < |eps| ==> eps[i].name != eps[j].name)
    && (forall i :: 0 <= i < |eps| ==> eps[i].name in m && m[eps[i].name] == eps[i])
  }

  /** Walks a map in no particular order. */
  method Collect(m: Entries, names: set<string>) returns (eps: seq<Endpoint>)
    requires names <= m.Keys && forall n :: n in m ==> m[n].name == n
    ensures ListsExactly(eps, m, names)
  {
    eps := [];
    var rest := names;
    while exists n :: n in rest
      invariant rest <= names && ListsExactly(eps, m, names - rest)
      decreases rest
    {
      var n :| n in rest;
      ListsMore(eps, m, names - rest, n);
      eps := eps + [m[n]];
      assert names - (rest - {n}) == names - rest + {n};
      rest := rest - {n};
    }
  }

  lemma ListsMore(eps: seq<Endpoint>, m: Entries, names: set<string>, n: string)
    requires ListsExactly(eps, m, names) && n in m && m[n].name == n && n !in names
    ensures ListsExactly(eps + [m[n]], m, names + {n})
  {
    var more := eps + [m[n]];
    assert forall i :: 0 <= i < |eps| ==> more[i] == eps[i] && eps[i].name in NamesOf(eps);
    assert more[|eps|].name == n;
  }

  lemma EnrollSnoc(registry: map<string, Entries>, app: string, eps: seq<Endpoint>, ep: Endpoint)
    ensures
      var sofar := Enroll(registry, app, eps);
      Enroll(registry, app, eps + [ep]) == sofar[app := EntriesOf(sofar, app)[ep.name := ep]]
  {
    var more := eps + [ep];
    assert more[..|eps|] == eps && more[|eps|] == ep;
    var before := EntriesOf(registry, app);
    assert before + ByName(more) == (before + ByName(eps))[ep.name := ep];
    if eps == [] {
      assert before + ByName(eps) == before;
    }
  }

  lemma OneMorePair(ps: Pools, app: string, ls: seq<Listener>, i: nat)
    requires i < |ls| && |TakePairs(ps, i).pairs| == i
    ensures
      var sofar := TakePairs(ps, i);
      var one := TakePair(sofar.pools);
      && TakePairs(ps, i + 1).pools == one.pools
      && (one.pair.None? ==> TakePairs(ps, |ls|) == PairsResult(one.pools, sofar.pairs))
      && (one.pair.Some? ==>
            && |TakePairs(ps, i + 1).pairs| == i + 1
            && EndpointsOf(app, ls, TakePairs(ps, i + 1).pairs)
            == EndpointsOf(app, ls, sofar.pairs) + [MakeEndpoint(app, ls[i], one.pair.value.host, one.pair.value.public)])
  {
    var sofar := TakePairs(ps, i);
    var one := TakePair(sofar.pools);
    if one.pair.None? {
      assert TakePairs(ps, i + 1) == PairsResult(one.pools, sofar.pairs);
      RefusedPairs(ps, i + 1, |ls|);
    } else {
      EndpointsSnoc(app, ls, sofar.pairs, one.pair.value);
    }
  }

  lemma EndpointsSnoc(app: string, ls: seq<Listener>, pairs: seq<Pair>, pr: Pair)
    requires |pairs| < |ls|
    ensures EndpointsOf(app, ls, pairs + [pr]) == EndpointsOf(app, ls, pairs) + [MakeEndpoint(app, ls[|pairs|], pr.host, pr.public)]
  {
  }

  lemma PairsStayWellFormed(ps: Pools, n: nat)
    requires ps.WellFormed()
    ensures TakePairs(ps, n).pools.WellFormed()
  {
    TakePairsSound(ps, n);
  }

  /** Once a pair is refused, asking for more changes nothing. */
  lemma {:induction false} RefusedPairs(ps: Pools, k: nat, n: nat)
    requires k <= n && |TakePairs(ps, k).pairs| < k
    ensures TakePairs(ps, n) == TakePairs(ps, k)
  {
    if k < n {
      RefusedPairs(ps, k, n - 1);
    }
  }

  lemma {:induction false} FailedRestoreStays(ps: Pools, app: string, ls: seq<Listener>, hostByGuest: map<int, int>, k: nat, n: nat)
    requires k <= n <= |ls| && RestoreListeners(ps, app, ls, hostByGuest, k).failed
    ensures RestoreListeners(ps, app, ls, hostByGuest, n) == RestoreListeners(ps, app, ls, hostByGuest, k)
  {
    if k < n {
      FailedRestoreStays(ps, app, ls, hostByGuest, k, n - 1);
    }
  }

  lemma {:induction false} FailedReconcileStays(ps: Pools, app: string, existing: Entries, ls: seq<Listener>, k: nat, n: nat)
    requires k <= n <= |ls| && ReconcileListeners(ps, app, existing, ls, k).failed
    ensures ReconcileListeners(ps, app, existing, ls, n) == ReconcileListeners(ps, app, existing, ls, k)
  {
    if k < n {
      FailedReconcileStays(ps, app, existing, ls, k, n - 1);
    }
  }

  class ServiceManager {
    const allocator: PortAllocator
    var registry: map<string, Entries>

    ghost function Model(): State
      reads this, allocator
    {
      State(allocator.Contents(), registry)
    }

    ghost predicate Valid()
      reads this, allocator
    {
      Inv(Model())
    }

    constructor ()
      ensures Valid() && fresh(allocator) && Model() == Initial()
    {
      allocator := new PortAllocator(HOST_RANGE, PUBLIC_RANGE);
      registry := map[];
    }

    method AllocateForApp(app: string, ls: seq<Listener>) returns (result: Option<seq<Endpoint>>)
      requires Valid()
      modifies this, allocator
      ensures Valid() && Model() == Registry.AllocateForApp(old(Model()), app, ls)
      ensures
        var pairs := TakePairs(old(allocator.Contents()), |ls|).pairs;
        && |pairs| <= |ls|
        && result == if |pairs| < |ls| then None else Some(EndpointsOf(app, ls, pairs))
    {
      AllocateKeepsInv(Model(), app, ls);
      PairCount(Model().pools, |ls|);
      result := AllocateListeners(app, ls);
    }

    method AllocateListeners(app: string, ls: seq<Listener>) returns (result: Option<seq<Endpoint>>)
      requires allocator.Valid()
      modifies this, allocator
      ensures Model() == Registry.AllocateForApp(old(Model()), app, ls)
      ensures
        var pairs := TakePairs(old(allocator.Contents()), |ls|).pairs;
        && |pairs| <= |ls|
        && result == if |pairs| < |ls| then None else Some(EndpointsOf(app, ls, pairs))
    {
      ghost var s := Model();
      var endpoints := [];
      for i := 0 to |ls|
        invariant |TakePairs(s.pools, i).pairs| == i
        invariant allocator.Contents() == TakePairs(s.pools, i).pools
        invariant endpoints == EndpointsOf(app, ls, TakePairs(s.pools, i).pairs)
        invariant registry == Enroll(s.registry, app, endpoints)
      {
        PairsStayWellFormed(s.pools, i);
        OneMorePair(s.pools, app, ls, i);
        var pair := allocator.AllocatePair();
        if pair.None? {
          return None;
        }
        endpoints := EnrollOne(app, ls[i], pair.value, s.registry, endpoints);
      }
      result := Some(endpoints);
    }

    method EnrollOne(app: string, l: Listener, pr: Pair, ghost base: map<string, Entries>, before: seq<Endpoint>)
      returns (endpoints: seq<Endpoint>)
      requires registry == Enroll(base, app, before)
      modifies this
      ensures endpoints == before + [MakeEndpoint(app, l, pr.host, pr.public)]
      ensures registry == Enroll(base, app, endpoints)
    {
      var ep := MakeEndpoint(app, l, pr.host, pr.public);
      EnrollSnoc(base, app, before, ep);
      endpoints := before + [ep];
      registry := registry[app := EntriesOf(registry, app)[ep.name := ep]];
    }

    method ReserveHostPort(port: int) returns (ok: bool)
      requires Valid()
      modifies allocator
      ensures Valid() && Model() == Registry.ReserveHostPort(old(Model()), port)
      ensures ok <==> old(allocator.host).Free(port)
      ensures ok ==> port in Pinned(Model())
    {
      ReserveKeepsInv(Model(), port);
      ok := allocator.ReserveHost(port);
    }

    method RemoveApp(app: string)
      requires Valid()
      modifies this, allocator
      ensures Valid() && Model() == Registry.RemoveApp(old(Model()), app)
    {
      ghost var s := Model();
      RemoveKeepsInv(s, app);
      if app in registry {
        forall n | n in registry[app] ensures registry[app][n].hostBind > 0 && registry[app][n].publicPort > 0 {
          assert Listed(s.registry, app, n) && Owns(s.pools, app, n, registry[app][n]);
        }
        ReleaseEntries(registry[app]);
        registry := registry - {app};
      }
    }

    /** Releases the ports of every entry, in map order. */
    method ReleaseEntries(m: Entries)
      requires forall n :: n in m ==> m[n].hostBind > 0 && m[n].publicPort > 0
      modifies allocator
      ensures allocator.host == old(allocator.host).ReleaseAll(HostsIn(m))
      ensures allocator.public == old(allocator.public).ReleaseAll(PublicsIn(m))
    {
      var rest := m.Keys;
      ReleaseAllSnoc(allocator.host, {}, 0);
      ReleaseAllSnoc(allocator.public, {}, 0);
      while exists n :: n in rest
        invariant rest <= m.Keys
        invariant allocator.host == old(allocator.host).ReleaseAll(HostsIn(m - rest))
        invariant allocator.public == old(allocator.public).ReleaseAll(PublicsIn(m - rest))
        decreases rest
      {
        var n :| n in rest;
        ReleaseAllSnoc(old(allocator.host), HostsIn(m - rest), m[n].hostBind);
        ReleaseAllSnoc(old(allocator.public), PublicsIn(m - rest), m[n].publicPort);
        PortsOfOneMore(m, rest, n);
        allocator.Release(m[n].hostBind, m[n].publicPort);
        rest := rest - {n};
      }
      assert m - rest == m;
    }

    method RestoreFromPodman(app: string, ls: seq<Listener>, hostByGuest: map<int, int>)
      returns (endpoints: seq<Endpoint>, ok: bool)
      requires Valid()
      modifies this, allocator
      ensures Valid() && Model() == Registry.RestoreFromPodman(old(Model()), app, ls, hostByGuest)
      ensures
        var r := RestoreListeners(Registry.RemoveApp(old(Model()), app).pools, app, ls, hostByGuest, |ls|);
        endpoints == r.endpoints && ok == !r.failed
      ensures !ok || endpoints == [] ==> app !in registry
      ensures RestoresExactly(Registry.RemoveApp(old(Model()), app).pools, app, ls, hostByGuest, |ls|,
                              Restoring(allocator.Contents(), endpoints, !ok))
    {
      RestoreKeepsInv(Model(), app, ls, hostByGuest);
      RemoveKeepsInv(Model(), app);
      RestoreExactly(Registry.RemoveApp(Model(), app).pools, app, ls, hostByGuest, |ls|);
      RemoveApp(app);
      endpoints, ok := Rebind(app, ls, hostByGuest);
      if ok && |endpoints| > 0 {
        var entries := IndexByName(endpoints);
        registry := registry[app := entries];
      }
    }

    method Rebind(app: string, ls: seq<Listener>, hostByGuest: map<int, int>)
      returns (endpoints: seq<Endpoint>, ok: bool)
      requires allocator.Valid()
      modifies allocator
      ensures Restoring(allocator.Contents(), endpoints, !ok)
           == RestoreListeners(old(allocator.Contents()), app, ls, hostByGuest, |ls|)
    {
      endpoints, ok := [], true;
      for i := 0 to |ls|
        invariant ok && allocator.Valid()
        invariant Restoring(allocator.Contents(), endpoints, false)
               == RestoreListeners(old(allocator.Contents()), app, ls, hostByGuest, i)
      {
        endpoints, ok := RebindOne(app, ls[i], hostByGuest, endpoints);
        if !ok {
          FailedRestoreStays(old(allocator.Contents()), app, ls, hostByGuest, i + 1, |ls|);
          return;
        }
      }
    }

    method RebindOne(app: string, l: Listener, hostByGuest: map<int, int>, before: seq<Endpoint>)
      returns (endpoints: seq<Endpoint>, ok: bool)
      requires allocator.Valid()
      modifies allocator
      ensures allocator.Valid()
      ensures Restoring(allocator.Contents(), endpoints, !ok)
           == RestoreOne(Restoring(old(allocator.Contents()), before, false), app, l, hostByGuest)
    {
      endpoints, ok := before, true;
      if l.guestPort in hostByGuest {
        var host := hostByGuest[l.guestPort];
        var reserved := allocator.ReserveHost(host);
        if reserved {
          var public := allocator.AllocatePublic();
          if public.None? {
            allocator.FreeHost(host);
            ok := false;
          } else {
            endpoints := endpoints + [MakeEndpoint(app, l, host, public.value)];
          }
        }
      }
    }

    method Reconcile(app: string, ls: seq<Listener>) returns (result: ReconcileResult, containerChange: bool, ok: bool)
      requires Valid()
      modifies this, allocator
      ensures Valid() && Model() == Registry.Reconcile(old(Model()), app, ls)
      ensures
        var existing := EntriesOf(old(registry), app);
        var r := ReconcileListeners(old(allocator.Contents()), app, existing, ls, |ls|);
        && (ok <==> !r.failed)
        && (!ok ==> result == ReconcileResult([], [], [], [], []) && !containerChange && registry == old(registry))
        && (ok ==>
              && result.added == r.added && result.guestPortChanged == r.guestChanged && result.proxyOnlyChanged == r.proxyChanged
              && ListsExactly(result.removed, existing, existing.Keys - Names(ls))
              && ListsExactly(result.endpoints, registry[app], Names(ls))
              && (DistinctNames(ls) ==>
                    && ReportsExactly(r, app, existing, ls)
                    && (containerChange <==> result.added != [] || result.removed != [] || result.guestPortChanged != [])))
    {
      ghost var s := Model();
      ReconcileKeepsInv(s, app, ls);
      ReconciledNames(s, app, ls);
      var existing := EntriesOf(registry, app);
      var r := Merge(app, existing, ls);
      if r.failed {
        return ReconcileResult([], [], [], [], []), false, false;
      }
      var removed := Collect(existing, existing.Keys - r.entries.Keys);
      containerChange := r.containerChange || removed != [];
      registry := registry[app := r.entries];
      var endpoints := Collect(r.entries, r.entries.Keys);
      result := ReconcileResult(endpoints, r.added, removed, r.guestChanged, r.proxyChanged);
      ok := true;
    }

    /** Walks the requested listeners, stopping at the first one that finds no ports. */
    method Merge(app: string, existing: Entries, ls: seq<Listener>) returns (r: Reconciling)
      requires allocator.Valid()
      modifies allocator
      ensures r == ReconcileListeners(old(allocator.Contents()), app, existing, ls, |ls|)
      ensures allocator.Contents() == r.pools
    {
      r := Reconciling(Pools(allocator.host, allocator.public), map[], [], [], [], false, false);
      for i := 0 to |ls|
        invariant allocator.Valid() && !r.failed && allocator.Contents() == r.pools
        invariant r == ReconcileListeners(old(allocator.Contents()), app, existing, ls, i)
      {
        r := MergeOne(r, app, existing, ls[i]);
        if r.failed {
          FailedReconcileStays(old(allocator.Contents()), app, existing, ls, i + 1, |ls|);
          return;
        }
      }
    }

    /** A known name keeps its ports, a new one gets a pair. */
    method MergeOne(before: Reconciling, app: string, existing: Entries, l: Listener) returns (r: Reconciling)
      requires allocator.Valid() && !before.failed && allocator.Contents() == before.pools
      modifies allocator
      ensures allocator.Valid() && allocator.Contents() == r.pools
      ensures r == ReconcileOne(before, app, existing, l)
    {
      r := before;
      if l.name in existing {
        var ep := existing[l.name];
        if ep.guestPort != l.guestPort {
          r := r.(containerChange := true,
                  guestChanged := r.guestChanged + [Change(ep, MakeEndpoint(app, l, ep.hostBind, ep.publicPort))]);
        }
        var same := MiddlewareEqual(ep.middleware, l.middleware);
        var restart := ep.flow != l.flow || ep.protocol != l.protocol || !same;
        ep := Retain(ep, l);
        r := r.(entries := r.entries[l.name := ep]);
        if restart {
          r := r.(proxyChanged := r.proxyChanged + [ep]);
        }
      } else {
        var pair := allocator.AllocatePair();
        r := r.(pools := Pools(allocator.host, allocator.public));
        if pair.None? {
          r := r.(failed := true);
        } else {
          var ep := MakeEndpoint(app, l, pair.value.host, pair.value.public);
          r := r.(entries := r.entries[l.name := ep], containerChange := true, added := r.added + [ep]);
        }
      }
    }
  }

  /** Middleware is compared by name alone, one position after the other. */
  method MiddlewareEqual(a: seq<Middleware>, b: seq<Middleware>) returns (same: bool)
    ensures same <==> MiddlewareNames(a) == MiddlewareNames(b)
  {
    if |a| != |b| {
      return false;
    }
    for i := 0 to |a|
      invariant forall j :: 0 <= j < i ==> a[j].name == b[j].name
    {
      if a[i].name != b[i].name {
        assert MiddlewareNames(a)[i] != MiddlewareNames(b)[i];
        return false;
      }
    }
    return true;
  }

  lemma PortsOfOneMore(m: Entries, rest: set<string>, n: string)
    requires n in rest && n in m
    ensures HostsIn(m - (rest - {n})) == HostsIn(m - rest) + {m[n].hostBind}
    ensures PublicsIn(m - (rest - {n})) == PublicsIn(m - rest) + {m[n].publicPort}
  {
    var before, after := m - rest, m - (rest - {n});
    assert n in after && forall k :: k in before ==> k in after && after[k] == before[k];
    assert forall k :: k in after ==> k == n || k in before;
  }

  method IndexByName(eps: seq<Endpoint>) returns (m: Entries)
    ensures m == ByName(eps)
  {
    m := map[];
    for i := 0 to |eps|
      invariant m == ByName(eps[..i])
    {
      assert eps[..i + 1][..i] == eps[..i];
      m := m[eps[i].name := eps[i]];
    }
    assert eps[..|eps|] == eps;
  }

  /** Facts about a reconcile the manager reports from. */
  lemma ReconciledNames(s: State, app: string, ls: seq<Listener>)
    requires Inv(s)
    ensures
      var existing := EntriesOf(s.registry, app);
      var r := ReconcileListeners(s.pools, app, existing, ls, |ls|);
      && (forall n :: n in existing ==> existing[n].name == n && existing[n].app == app)
      && (forall n :: n in r.entries ==> r.entries[n].name == n)
      && (!r.failed ==> r.entries.Keys == Names(ls))
      && (!r.failed && DistinctNames(ls) ==> ReportsExactly(r, app, existing, ls))
  {
    var existing := EntriesOf(s.registry, app);
    var r := ReconcileListeners(s.pools, app, existing, ls, |ls|);
    forall n | n in existing ensures existing[n].name == n && existing[n].app == app {
      assert Listed(s.registry, app, n) && Owns(s.pools, app, n, existing[n]);
    }
    ReconcileListenersSound(s, app, ls, |ls|);
    assert forall n :: n in r.entries ==> Owns(r.pools, app, n, r.entries[n]);
    assert ls[..|ls|] == ls;
    if !r.failed {
      EntriesAreRequested(s.pools, app, existing, ls, |ls|);
      if DistinctNames(ls) {
        ReconcileReport(s.pools, app, existing, ls, |ls|);
      }
    }
  }

  /** A reconcile that did not fail holds the requested names and nothing else. */
  lemma {:induction false} EntriesAreRequested(ps: Pools, app: string, existing: Entries, ls: seq<Listener>, n: nat)
    requires n <= |ls| && !ReconcileListeners(ps, app, existing, ls, n).failed
    ensures ReconcileListeners(ps, app, existing, ls, n).entries.Keys == Names(ls[..n])
  {
    if n > 0 {
      EntriesAreRequested(ps, app, existing, ls, n - 1);
      assert ls[..n] == ls[..n - 1] + [ls[n - 1]];
      NamesSnoc(ls[..n - 1], ls[n - 1]);
    }
  }
}
