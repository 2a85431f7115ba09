/** The service registry as a state machine over values: which listener owns which ports. */
module Registry {
  import opened Common
  import opened Ports

  datatype Flow = FlowTCP | FlowTLS

  datatype Middleware = Middleware(name: string, params: string)

  datatype Listener = Listener(name: string, guestPort: int, flow: Flow, protocol: string,
                               middleware: seq<Middleware>, remotePorts: seq<int>)

  datatype Endpoint = Endpoint(app: string, name: string, guestPort: int, hostBind: int, publicPort: int,
                               flow: Flow, protocol: string, middleware: seq<Middleware>, remotePorts: seq<int>)

  type Entries = map<string, Endpoint>

  /** Both port pools and, per app and listener name, the endpoint published for it. */
  datatype State = State(pools: Pools, registry: map<string, Entries>)

  const HOST_RANGE := PortRange(15000, 25000)
  const PUBLIC_RANGE := PortRange(35000, 45000)

  function Initial(): State {
    State(Pools(FreshPool(HOST_RANGE), FreshPool(PUBLIC_RANGE)), map[])
  }

  function DefaultRemotePorts(l: Listener): seq<int> {
    if l.remotePorts == [] then [80, 443] else l.remotePorts
  }

  function MakeEndpoint(app: string, l: Listener, host: int, public: int): Endpoint {
    Endpoint(app, l.name, l.guestPort, host, public, l.flow, l.protocol, l.middleware, DefaultRemotePorts(l))
  }

  function EntriesOf(registry: map<string, Entries>, app: string): Entries {
    if app in registry then registry[app] else map[]
  }

  /** Index by listener name; the last endpoint of a name wins. */
  function ByName(eps: seq<Endpoint>): Entries {
    if eps == [] then map[]
    else
      var last := eps[|eps| - 1];
      ByName(eps[..|eps| - 1])[last.name := last]
  }

  predicate DistinctNames(ls: seq<Listener>) {
    forall i, j :: 0 <= i < j < |ls| ==> ls[i].name != ls[j].name
  }

  function Names(ls: seq<Listener>): set<string> {
    set i | 0 <= i < |ls| :: ls[i].name
  }

  function HostsIn(m: Entries): set<int> {
    set n | n in m :: m[n].hostBind
  }

  function PublicsIn(m: Entries): set<int> {
    set n | n in m :: m[n].publicPort
  }

  function AllHosts(registry: map<string, Entries>): set<int> {
    set app, n | app in registry && n in registry[app] :: registry[app][n].hostBind
  }

  // ---------------------------------------------------------------- operations

  function EndpointsOf(app: string, ls: seq<Listener>, pairs: seq<Pair>): (eps: seq<Endpoint>)
    requires |pairs| <= |ls|
    ensures |eps| == |pairs|
  {
    seq(|pairs|, i requires 0 <= i < |pairs| => MakeEndpoint(app, ls[i], pairs[i].host, pairs[i].public))
  }

  function Enroll(registry: map<string, Entries>, app: string, eps: seq<Endpoint>): map<string, Entries> {
    if eps == [] then registry else registry[app := EntriesOf(registry, app) + ByName(eps)]
  }

  /** Ports for every listener in order; a failure half-way keeps what was already registered. */
  function AllocateForApp(s: State, app: string, ls: seq<Listener>): State {
    var r := TakePairs(s.pools, |ls|);
    PairCount(s.pools, |ls|);
    State(r.pools, Enroll(s.registry, app, EndpointsOf(app, ls, r.pairs)))
  }

  ghost function RemoveApp(s: State, app: string): State {
    if app !in s.registry then s
    else
      var m := s.registry[app];
      State(Pools(s.pools.host.ReleaseAll(HostsIn(m)), s.pools.public.ReleaseAll(PublicsIn(m))), s.registry - {app})
  }

  function ReserveHostPort(s: State, port: int): State {
    s.(pools := s.pools.(host := PoolStep(s.pools.host, Reserve(port))))
  }

  datatype Restoring = Restoring(pools: Pools, endpoints: seq<Endpoint>, failed: bool)

  /** One listener rebound to the host port a running container already publishes. */
  function RestoreOne(r: Restoring, app: string, l: Listener, hostByGuest: map<int, int>): Restoring {
    if l.guestPort !in hostByGuest then r
    else
      var host := hostByGuest[l.guestPort];
      if !r.pools.host.Free(host) || host > r.pools.host.range.end then r
      else
        match r.pools.public.NextFree()
        case None => r.(pools := r.pools.(host := r.pools.host.Take(host).Release(host)), failed := true)
        case Some(p) =>
          Restoring(Pools(r.pools.host.Take(host), r.pools.public.Take(p)),
                    r.endpoints + [MakeEndpoint(app, l, host, p)], false)
  }

  /** The first n listeners, stopping at the first one that finds no public port. */
  function RestoreListeners(ps: Pools, app: string, ls: seq<Listener>, hostByGuest: map<int, int>, n: nat): Restoring
    requires n <= |ls|
  {
    if n == 0 then Restoring(ps, [], false)
    else
      var r := RestoreListeners(ps, app, ls, hostByGuest, n - 1);
      if r.failed then r else RestoreOne(r, app, ls[n - 1], hostByGuest)
  }

  ghost function RestoreFromPodman(s: State, app: string, ls: seq<Listener>, hostByGuest: map<int, int>): State {
    var clean := RemoveApp(s, app);
    var r := RestoreListeners(clean.pools, app, ls, hostByGuest, |ls|);
    State(r.pools, if r.failed || r.endpoints == [] then clean.registry else clean.registry[app := ByName(r.endpoints)])
  }

  function MiddlewareNames(ms: seq<Middleware>): (names: seq<string>)
    ensures |names| == |ms|
  {
    seq(|ms|, i requires 0 <= i < |ms| => ms[i].name)
  }

  /** An existing endpoint under a listener's new configuration: same ports. */
  function Retain(before: Endpoint, l: Listener): Endpoint {
    before.(guestPort := l.guestPort, flow := l.flow, protocol := l.protocol,
            middleware := l.middleware, remotePorts := DefaultRemotePorts(l))
  }

  /** The proxy must be restarted for the new configuration. */
  predicate NeedsRestart(before: Endpoint, l: Listener) {
    before.flow != l.flow || before.protocol != l.protocol || MiddlewareNames(before.middleware) != MiddlewareNames(l.middleware)
  }

  datatype Change = Change(before: Endpoint, after: Endpoint)

  datatype Reconciling = Reconciling(pools: Pools, entries: Entries, added: seq<Endpoint>, guestChanged: seq<Change>,
                                     proxyChanged: seq<Endpoint>, containerChange: bool, failed: bool)

  function ReconcileRetained(r: Reconciling, app: string, before: Endpoint, l: Listener): Reconciling {
    var after := Retain(before, l);
    var moved := before.guestPort != l.guestPort;
    r.(entries := r.entries[l.name := after],
       containerChange := r.containerChange || moved,
       guestChanged := if moved then r.guestChanged + [Change(before, MakeEndpoint(app, l, before.hostBind, before.publicPort))] else r.guestChanged,
       proxyChanged := if NeedsRestart(before, l) then r.proxyChanged + [after] else r.proxyChanged)
  }

  function ReconcileNew(r: Reconciling, app: string, l: Listener): Reconciling {
    var one := TakePair(r.pools);
    match one.pair
    case None => r.(pools := one.pools, failed := true)
    case Some(pr) =>
      var ep := MakeEndpoint(app, l, pr.host, pr.public);
      r.(pools := one.pools, entries := r.entries[l.name := ep], added := r.added + [ep], containerChange := true)
  }

  /** One listener merged with the existing entries of the app; nothing more happens after a failure. */
  function ReconcileOne(r: Reconciling, app: string, existing: Entries, l: Listener): Reconciling {
    if r.failed then r
    else if l.name in existing then ReconcileRetained(r, app, existing[l.name], l)
    else ReconcileNew(r, app, l)
  }

  /** The first n listeners, merged in order. */
  function ReconcileListeners(ps: Pools, app: string, existing: Entries, ls: seq<Listener>, n: nat): Reconciling
    requires n <= |ls|
  {
    if n == 0 then Reconciling(ps, map[], [], [], [], false, false)
    else ReconcileOne(ReconcileListeners(ps, app, existing, ls, n - 1), app, existing, ls[n - 1])
  }

  function Reconcile(s: State, app: string, ls: seq<Listener>): State {
    var r := ReconcileListeners(s.pools, app, EntriesOf(s.registry, app), ls, |ls|);
    State(r.pools, if r.failed then s.registry else s.registry[app := r.entries])
  }

  // ---------------------------------------------------------------- invariant

  ghost predicate Listed(registry: map<string, Entries>, app: string, n: string) {
    app in registry && n in registry[app]
  }

  /** Every published endpoint owns its two ports: in range, marked used, shared with no other endpoint. */
  ghost predicate Inv(s: State) {
    && s.pools.WellFormed() && s.pools.public.Packed()
    && s.pools.host.range == HOST_RANGE && s.pools.public.range == PUBLIC_RANGE
    && (forall a, n :: Listed(s.registry, a, n) ==> Owns(s.pools, a, n, s.registry[a][n]))
    && (forall a, n, b, m :: Listed(s.registry, a, n) && Listed(s.registry, b, m) && (a != b || n != m) ==>
          Apart(s.registry[a][n], s.registry[b][m]))
  }

  ghost predicate Owns(ps: Pools, app: string, n: string, ep: Endpoint) {
    ep.app == app && ep.name == n && ep.hostBind in ps.host.used && ep.publicPort in ps.public.used
  }

  ghost predicate Apart(x: Endpoint, y: Endpoint) {
    x.hostBind != y.hostBind && x.publicPort != y.publicPort
  }

  ghost predicate Fresh(ps: Pools, ep: Endpoint) {
    ep.hostBind !in ps.host.used && ep.publicPort !in ps.public.used
  }

  /** Host ports in use that no endpoint owns: reserved ports and ports lost for good. */
  ghost function Pinned(s: State): set<int> {
    s.pools.host.used - AllHosts(s.registry)
  }

  /** ps2 is ps1 with more ports in use. */
  ghost predicate Extends(ps1: Pools, ps2: Pools) {
    && ps2.WellFormed() && ps2.public.Packed()
    && ps2.host.range == ps1.host.range && ps2.public.range == ps1.public.range
    && ps1.host.used <= ps2.host.used && ps1.public.used <= ps2.public.used
  }

  /** Entries an app may switch to: each owns its ports and either keeps them or got fresh ones. */
  ghost predicate Acceptable(s: State, ps: Pools, app: string, m: Entries) {
    && (forall n :: n in m ==> Owns(ps, app, n, m[n]) && (Kept(s, app, n, m[n]) || Fresh(s.pools, m[n])))
    && (forall n, k :: n in m && k in m && n != k && Fresh(s.pools, m[n]) && Fresh(s.pools, m[k]) ==> Apart(m[n], m[k]))
  }

  ghost predicate Kept(s: State, app: string, n: string, ep: Endpoint) {
    && Listed(s.registry, app, n)
    && ep.hostBind == s.registry[app][n].hostBind && ep.publicPort == s.registry[app][n].publicPort
  }

  lemma MoreUsedKeepsInv(s: State, ps: Pools)
    requires Inv(s) && Extends(s.pools, ps)
    ensures Inv(s.(pools := ps)) && Pinned(s) <= Pinned(s.(pools := ps))
  {
  }

  lemma SwitchApart(s: State, ps: Pools, app: string, m: Entries, a: string, n: string, b: string, k: string)
    requires Inv(s) && Acceptable(s, ps, app, m)
    requires Listed(s.registry[app := m], a, n) && Listed(s.registry[app := m], b, k) && (a != b || n != k)
    ensures Apart(s.registry[app := m][a][n], s.registry[app := m][b][k])
  {
    var x, y := s.registry[app := m][a][n], s.registry[app := m][b][k];
    assert a != app ==> Listed(s.registry, a, n) && Owns(s.pools, a, n, x);
    assert b != app ==> Listed(s.registry, b, k) && Owns(s.pools, b, k, y);
    assert a == app && !Fresh(s.pools, x) ==> Kept(s, a, n, x) && Owns(s.pools, a, n, s.registry[a][n]);
    assert b == app && !Fresh(s.pools, y) ==> Kept(s, b, k, y) && Owns(s.pools, b, k, s.registry[b][k]);
  }

  /** Switching frees no port that was used without an owner. */
  lemma SwitchKeepsPinned(s: State, ps: Pools, app: string, m: Entries)
    requires Inv(s) && Extends(s.pools, ps) && Acceptable(s, ps, app, m)
    ensures Pinned(s) <= Pinned(State(ps, s.registry[app := m]))
  {
    var registry := s.registry[app := m];
    forall p | p in AllHosts(registry) && p in s.pools.host.used ensures p in AllHosts(s.registry) {
      var a, n :| a in registry && n in registry[a] && registry[a][n].hostBind == p;
      if a == app {
        assert n in m && registry[a] == m;
        assert Owns(ps, app, n, m[n]) && !Fresh(s.pools, m[n]);
        assert Kept(s, app, n, m[n]);
      }
      assert a in s.registry && n in s.registry[a] && s.registry[a][n].hostBind == p;
    }
  }

  /** Switching one app to acceptable entries keeps the invariant and frees no pinned port. */
  lemma SwitchKeepsInv(s: State, ps: Pools, app: string, m: Entries)
    requires Inv(s) && Extends(s.pools, ps) && Acceptable(s, ps, app, m)
    ensures Inv(State(ps, s.registry[app := m]))
    ensures Pinned(s) <= Pinned(State(ps, s.registry[app := m]))
  {
    var registry := s.registry[app := m];
    SwitchKeepsPinned(s, ps, app, m);
    forall a, n | Listed(registry, a, n) ensures Owns(ps, a, n, registry[a][n]) {
      assert a != app ==> Listed(s.registry, a, n) && Owns(s.pools, a, n, s.registry[a][n]);
    }
    forall a, n, b, k | Listed(registry, a, n) && Listed(registry, b, k) && (a != b || n != k)
      ensures Apart(registry[a][n], registry[b][k])
    {
      SwitchApart(s, ps, app, m, a, n, b, k);
    }
  }

  // ---------------------------------------------------------------- allocation

  lemma {:induction false} PairCount(ps: Pools, n: nat)
    ensures |TakePairs(ps, n).pairs| <= n
  {
    if n > 0 {
      PairCount(ps, n - 1);
    }
  }

  /** Every entry of the index is one of the endpoints, filed under its own name. */
  lemma {:induction false} ByNameSound(eps: seq<Endpoint>, n: string) returns (i: nat)
    requires n in ByName(eps)
    ensures i < |eps| && eps[i].name == n && ByName(eps)[n] == eps[i]
    ensures forall j :: i < j < |eps| ==> eps[j].name != n
  {
    var last := |eps| - 1;
    if eps[last].name == n {
      i := last;
    } else {
      i := ByNameSound(eps[..last], n);
    }
  }

  lemma {:induction false} ByNameComplete(eps: seq<Endpoint>, i: nat)
    requires i < |eps|
    ensures eps[i].name in ByName(eps)
    ensures (forall j :: i < j < |eps| ==> eps[j].name != eps[i].name) ==> ByName(eps)[eps[i].name] == eps[i]
  {
    var last := |eps| - 1;
    if i < last {
      assert eps[..last][i] == eps[i];
      ByNameComplete(eps[..last], i);
    }
  }

  ghost predicate FreshApart(ps: Pools, eps: seq<Endpoint>) {
    && (forall i :: 0 <= i < |eps| ==> Fresh(ps, eps[i]))
    && (forall i, j :: 0 <= i < j < |eps| ==> Apart(eps[i], eps[j]))
  }

  ghost predicate AllOwned(ps: Pools, app: string, eps: seq<Endpoint>) {
    forall i :: 0 <= i < |eps| ==> Owns(ps, app, eps[i].name, eps[i])
  }

  /** Fresh endpoints indexed by name may be laid over whatever the app had. */
  lemma OverlayAcceptable(s: State, ps: Pools, app: string, eps: seq<Endpoint>)
    requires Inv(s) && Extends(s.pools, ps) && FreshApart(s.pools, eps) && AllOwned(ps, app, eps)
    ensures Acceptable(s, ps, app, EntriesOf(s.registry, app) + ByName(eps))
  {
    var m := EntriesOf(s.registry, app) + ByName(eps);
    forall n | n in m
      ensures Owns(ps, app, n, m[n]) && (Kept(s, app, n, m[n]) || Fresh(s.pools, m[n]))
    {
      if n in ByName(eps) {
        var i := ByNameSound(eps, n);
      } else {
        assert Listed(s.registry, app, n) && Owns(s.pools, app, n, m[n]);
      }
    }
    forall n | n in m && n !in ByName(eps) ensures !Fresh(s.pools, m[n]) {
      assert Listed(s.registry, app, n) && Owns(s.pools, app, n, m[n]);
    }
    forall n, k | n in m && k in m && n != k && Fresh(s.pools, m[n]) && Fresh(s.pools, m[k])
      ensures Apart(m[n], m[k])
    {
      var i := ByNameSound(eps, n);
      var j := ByNameSound(eps, k);
    }
  }

  lemma AllocatedEndpoints(s: State, app: string, ls: seq<Listener>)
    requires Inv(s)
    ensures
      var r := TakePairs(s.pools, |ls|);
      && |r.pairs| <= |ls| && Extends(s.pools, r.pools) && Grown(s.pools, r)
      && FreshApart(s.pools, EndpointsOf(app, ls, r.pairs)) && AllOwned(r.pools, app, EndpointsOf(app, ls, r.pairs))
  {
    TakePairsSound(s.pools, |ls|);
    var r := TakePairs(s.pools, |ls|);
    var eps := EndpointsOf(app, ls, r.pairs);
    forall i | 0 <= i < |eps| ensures Fresh(s.pools, eps[i]) && Owns(r.pools, app, eps[i].name, eps[i]) {
      assert eps[i].hostBind == r.pairs[i].host && eps[i].publicPort == r.pairs[i].public;
      assert r.pairs[i].host in Hosts(r.pairs) && r.pairs[i].public in Publics(r.pairs);
    }
  }

  lemma AllocateKeepsInv(s: State, app: string, ls: seq<Listener>)
    requires Inv(s)
    ensures Inv(AllocateForApp(s, app, ls)) && Pinned(s) <= Pinned(AllocateForApp(s, app, ls))
  {
    AllocatedEndpoints(s, app, ls);
    var r := TakePairs(s.pools, |ls|);
    var eps := EndpointsOf(app, ls, r.pairs);
    if eps == [] {
      MoreUsedKeepsInv(s, r.pools);
    } else {
      OverlayAcceptable(s, r.pools, app, eps);
      SwitchKeepsInv(s, r.pools, app, EntriesOf(s.registry, app) + ByName(eps));
    }
  }
}
