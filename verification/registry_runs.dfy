/** What every run of the service registry keeps, and what its operations undo or report. */
module RegistryRuns {
  import opened Common
  import opened Ports
  import opened Registry

  // ---------------------------------------------------------------- removal

  lemma ReleaseAllKeeps(pool: Pool, ports: set<int>)
    requires pool.WellFormed() && ports <= pool.used
    ensures pool.ReleaseAll(ports).WellFormed()
    ensures pool.Packed() ==> pool.ReleaseAll(ports).Packed()
  {
  }

  lemma RemoveKeepsInv(s: State, app: string)
    requires Inv(s)
    ensures Inv(RemoveApp(s, app)) && Pinned(s) <= Pinned(RemoveApp(s, app))
    ensures app !in RemoveApp(s, app).registry
  {
    if app in s.registry {
      var m := s.registry[app];
      var t := RemoveApp(s, app);
      forall n | n in m ensures m[n].hostBind in s.pools.host.used && m[n].publicPort in s.pools.public.used {
        assert Listed(s.registry, app, n) && Owns(s.pools, app, n, m[n]);
      }
      ReleaseAllKeeps(s.pools.host, HostsIn(m));
      ReleaseAllKeeps(s.pools.public, PublicsIn(m));
      forall a, n | Listed(t.registry, a, n) ensures Owns(t.pools, a, n, t.registry[a][n]) {
        assert Listed(s.registry, a, n) && Owns(s.pools, a, n, s.registry[a][n]);
        forall k | k in m ensures Apart(m[k], s.registry[a][n]) {
          assert Listed(s.registry, app, k);
        }
      }
      forall a, n, b, k | Listed(t.registry, a, n) && Listed(t.registry, b, k) && (a != b || n != k)
        ensures Apart(t.registry[a][n], t.registry[b][k])
      {
        assert Listed(s.registry, a, n) && Listed(s.registry, b, k);
      }
      assert HostsIn(m) <= AllHosts(s.registry);
    }
  }

  // ---------------------------------------------------------------- restore

  lemma {:induction false} RestoreListenersSound(s: State, app: string, ls: seq<Listener>, hostByGuest: map<int, int>, n: nat)
    requires Inv(s) && n <= |ls|
    ensures
      var r := RestoreListeners(s.pools, app, ls, hostByGuest, n);
      Extends(s.pools, r.pools) && FreshApart(s.pools, r.endpoints) && AllOwned(r.pools, app, r.endpoints)
  {
    if n > 0 {
      RestoreListenersSound(s, app, ls, hostByGuest, n - 1);
      var r := RestoreListeners(s.pools, app, ls, hostByGuest, n - 1);
      var l := ls[n - 1];
      NextFreeIsFirstInCyclicOrder(r.pools.public);
      if !r.failed && l.guestPort in hostByGuest && r.pools.host.Free(hostByGuest[l.guestPort]) {
        var host := hostByGuest[l.guestPort];
        TakeKeeps(r.pools.host, host);
        match r.pools.public.NextFree()
        case None =>
        case Some(p) =>
          TakeKeeps(r.pools.public, p);
          var ps := Pools(r.pools.host.Take(host), r.pools.public.Take(p));
          SnocFreshApart(s.pools, r.pools, ps, app, r.endpoints, MakeEndpoint(app, l, host, p));
      }
    }
  }

  lemma SnocFreshApart(ps0: Pools, ps1: Pools, ps2: Pools, app: string, eps: seq<Endpoint>, ep: Endpoint)
    requires Extends(ps0, ps1) && FreshApart(ps0, eps) && AllOwned(ps1, app, eps)
    requires Extends(ps1, ps2) && Fresh(ps1, ep) && Owns(ps2, app, ep.name, ep)
    ensures FreshApart(ps0, eps + [ep]) && AllOwned(ps2, app, eps + [ep])
  {
  }

  lemma RestoreKeepsInv(s: State, app: string, ls: seq<Listener>, hostByGuest: map<int, int>)
    requires Inv(s)
    ensures Inv(RestoreFromPodman(s, app, ls, hostByGuest))
    ensures Pinned(s) <= Pinned(RestoreFromPodman(s, app, ls, hostByGuest))
  {
    RemoveKeepsInv(s, app);
    var clean := RemoveApp(s, app);
    RestoreListenersSound(clean, app, ls, hostByGuest, |ls|);
    var r := RestoreListeners(clean.pools, app, ls, hostByGuest, |ls|);
    if r.failed || r.endpoints == [] {
      MoreUsedKeepsInv(clean, r.pools);
    } else {
      OverlayAcceptable(clean, r.pools, app, r.endpoints);
      assert EntriesOf(clean.registry, app) + ByName(r.endpoints) == ByName(r.endpoints);
      SwitchKeepsInv(clean, r.pools, app, ByName(r.endpoints));
    }
  }

  /** The endpoint publishes the listener for the app, to ports 80 and 443 if the listener names none. */
  ghost predicate MadeFor(ep: Endpoint, app: string, l: Listener) {
    && ep.app == app && ep.name == l.name && ep.guestPort == l.guestPort && ep.flow == l.flow && ep.protocol == l.protocol
    && ep.middleware == l.middleware && ep.remotePorts == if |l.remotePorts| == 0 then [80, 443] else l.remotePorts
  }

  predicate MapsTo(ls: seq<Listener>, hostByGuest: map<int, int>, k: int, host: int) {
    0 <= k < |ls| && ls[k].guestPort in hostByGuest && hostByGuest[ls[k].guestPort] == host
  }

  /** The container publishes the guest port of listener k on a host port that is in range, free, and not that of an
      earlier listener. */
  predicate Claims(pool: Pool, ls: seq<Listener>, hostByGuest: map<int, int>, k: int) {
    && 0 <= k < |ls| && ls[k].guestPort in hostByGuest
    && var host := hostByGuest[ls[k].guestPort];
    && pool.range.start <= host <= pool.range.end && host !in pool.used
    && forall j :: 0 <= j < k ==> !MapsTo(ls, hostByGuest, j, host)
  }

  /** Those of the first n listeners that do, in order. */
  function Claimants(pool: Pool, ls: seq<Listener>, hostByGuest: map<int, int>, n: nat): (ks: seq<int>)
    ensures forall i :: 0 <= i < |ks| ==> 0 <= ks[i] < n && Claims(pool, ls, hostByGuest, ks[i])
  {
    if n == 0 then []
    else Claimants(pool, ls, hostByGuest, n - 1) + if Claims(pool, ls, hostByGuest, n - 1) then [n - 1] else []
  }

  /** A free port in range is claimed exactly when some listener maps to it. */
  lemma {:induction false} FirstClaims(pool: Pool, ls: seq<Listener>, hostByGuest: map<int, int>, n: nat, host: int)
    requires n <= |ls| && pool.range.start <= host <= pool.range.end && host !in pool.used
    ensures
      var ks := Claimants(pool, ls, hostByGuest, n);
      (exists i :: 0 <= i < |ks| && MapsTo(ls, hostByGuest, ks[i], host)) <==> exists j :: 0 <= j < n && MapsTo(ls, hostByGuest, j, host)
  {
    if n > 0 {
      FirstClaims(pool, ls, hostByGuest, n - 1, host);
      var before, ks := Claimants(pool, ls, hostByGuest, n - 1), Claimants(pool, ls, hostByGuest, n);
      assert forall i :: 0 <= i < |before| ==> ks[i] == before[i];
      if MapsTo(ls, hostByGuest, n - 1, host) && Claims(pool, ls, hostByGuest, n - 1) {
        assert MapsTo(ls, hostByGuest, ks[|before|], host);
      }
    }
  }

  /** The endpoint has the host port the container already publishes for its listener. */
  ghost predicate RestoredAs(ep: Endpoint, app: string, l: Listener, hostByGuest: map<int, int>) {
    l.guestPort in hostByGuest && ep.hostBind == hostByGuest[l.guestPort] && MadeFor(ep, app, l)
  }

  /** The claimants are restored in order; only a full public pool leaves some of them out. */
  ghost predicate RestoresExactly(ps: Pools, app: string, ls: seq<Listener>, hostByGuest: map<int, int>, n: nat, r: Restoring) {
    var ks := Claimants(ps.host, ls, hostByGuest, n);
    && |r.endpoints| <= |ks|
    && (forall i :: 0 <= i < |r.endpoints| ==> RestoredAs(r.endpoints[i], app, ls[ks[i]], hostByGuest))
    && (r.failed <==> |r.endpoints| < |ks|) && (r.failed ==> Full(r.pools.public))
    && r.pools.host.used == ps.host.used + HostsOf(r.endpoints)
    && r.pools.public.used == ps.public.used + PublicsOf(r.endpoints)
  }

  lemma {:induction false} RestoreExactly(ps: Pools, app: string, ls: seq<Listener>, hostByGuest: map<int, int>, n: nat)
    requires ps.WellFormed() && n <= |ls|
    ensures
      var r := RestoreListeners(ps, app, ls, hostByGuest, n);
      && RestoresExactly(ps, app, ls, hostByGuest, n, r)
      && r.pools.WellFormed() && r.pools.host.range == ps.host.range && r.pools.public.range == ps.public.range
  {
    if n > 0 {
      RestoreExactly(ps, app, ls, hostByGuest, n - 1);
      var r := RestoreListeners(ps, app, ls, hostByGuest, n - 1);
      if !r.failed {
        ClaimIsFree(ps, app, ls, hostByGuest, n - 1, r);
        RestoreOneExactly(ps, app, ls, hostByGuest, n - 1, r);
      }
    }
  }

  /** What is still free for the next listener is exactly what it claims. */
  lemma ClaimIsFree(ps: Pools, app: string, ls: seq<Listener>, hostByGuest: map<int, int>, n: nat, r: Restoring)
    requires n < |ls| && RestoresExactly(ps, app, ls, hostByGuest, n, r) && !r.failed && r.pools.host.range == ps.host.range
    ensures Claims(ps.host, ls, hostByGuest, n) <==>
            (&& ls[n].guestPort in hostByGuest
             && var host := hostByGuest[ls[n].guestPort];
             r.pools.host.range.start <= host <= r.pools.host.range.end && host !in r.pools.host.used)
  {
    var ks := Claimants(ps.host, ls, hostByGuest, n);
    if ls[n].guestPort in hostByGuest {
      var host := hostByGuest[ls[n].guestPort];
      if ps.host.range.start <= host <= ps.host.range.end && host !in ps.host.used {
        FirstClaims(ps.host, ls, hostByGuest, n, host);
        assert forall i :: 0 <= i < |ks| ==> RestoredAs(r.endpoints[i], app, ls[ks[i]], hostByGuest)
                                             && (r.endpoints[i].hostBind == host <==> MapsTo(ls, hostByGuest, ks[i], host));
        assert host in HostsOf(r.endpoints) <==> exists i :: 0 <= i < |ks| && MapsTo(ls, hostByGuest, ks[i], host);
      }
    }
  }

  lemma RestoreOneExactly(ps: Pools, app: string, ls: seq<Listener>, hostByGuest: map<int, int>, n: nat, r: Restoring)
    requires n < |ls| && RestoresExactly(ps, app, ls, hostByGuest, n, r) && !r.failed
    requires r.pools.WellFormed() && r.pools.host.range == ps.host.range && r.pools.public.range == ps.public.range
    requires Claims(ps.host, ls, hostByGuest, n) <==>
             (&& ls[n].guestPort in hostByGuest
              && var host := hostByGuest[ls[n].guestPort];
              r.pools.host.range.start <= host <= r.pools.host.range.end && host !in r.pools.host.used)
    ensures
      var after := RestoreOne(r, app, ls[n], hostByGuest);
      && RestoresExactly(ps, app, ls, hostByGuest, n + 1, after)
      && after.pools.WellFormed() && after.pools.host.range == ps.host.range && after.pools.public.range == ps.public.range
  {
    NextFreeIsFirstInCyclicOrder(r.pools.public);
    if Claims(ps.host, ls, hostByGuest, n) {
      var host := hostByGuest[ls[n].guestPort];
      TakeKeeps(r.pools.host, host);
      match r.pools.public.NextFree()
      case None => assert (r.pools.host.used + {host}) - {host} == r.pools.host.used;
      case Some(p) =>
        TakeKeeps(r.pools.public, p);
        PortsOfOneMoreEndpoint(r.endpoints, MakeEndpoint(app, ls[n], host, p));
    }
  }

  lemma PortsOfOneMoreEndpoint(eps: seq<Endpoint>, ep: Endpoint)
    ensures HostsOf(eps + [ep]) == HostsOf(eps) + {ep.hostBind} && PublicsOf(eps + [ep]) == PublicsOf(eps) + {ep.publicPort}
  {
    var more := eps + [ep];
    assert more[|eps|] == ep && forall i :: 0 <= i < |eps| ==> more[i] == eps[i];
  }

  // ---------------------------------------------------------------- reconcile

  /** What a merge has built so far may replace the app's entries. */
  ghost predicate MergesSoundly(s: State, app: string, r: Reconciling) {
    Extends(s.pools, r.pools) && Acceptable(s, r.pools, app, r.entries)
  }

  lemma {:induction false} ReconcileListenersSound(s: State, app: string, ls: seq<Listener>, n: nat)
    requires Inv(s) && n <= |ls|
    ensures MergesSoundly(s, app, ReconcileListeners(s.pools, app, EntriesOf(s.registry, app), ls, n))
  {
    if n > 0 {
      ReconcileListenersSound(s, app, ls, n - 1);
      ReconcileOneSound(s, app, ReconcileListeners(s.pools, app, EntriesOf(s.registry, app), ls, n - 1), ls[n - 1]);
    }
  }

  lemma ReconcileOneSound(s: State, app: string, r: Reconciling, l: Listener)
    requires Inv(s) && MergesSoundly(s, app, r)
    ensures MergesSoundly(s, app, ReconcileOne(r, app, EntriesOf(s.registry, app), l))
  {
    var existing := EntriesOf(s.registry, app);
    if !r.failed && l.name in existing {
      assert Listed(s.registry, app, l.name) && Owns(s.pools, app, l.name, existing[l.name]);
      AddAcceptable(s, r.pools, r.pools, app, r.entries, Retain(existing[l.name], l));
    } else if !r.failed {
      ReconcileNewSound(s, app, r, l);
    }
  }

  lemma ReconcileNewSound(s: State, app: string, r: Reconciling, l: Listener)
    requires Inv(s) && MergesSoundly(s, app, r)
    ensures MergesSoundly(s, app, ReconcileNew(r, app, l))
  {
    TakePairSound(r.pools);
    var one := TakePair(r.pools);
    if one.pair.Some? {
      AddAcceptable(s, r.pools, one.pools, app, r.entries, MakeEndpoint(app, l, one.pair.value.host, one.pair.value.public));
    } else {
      MoreUsedAcceptable(s, r.pools, one.pools, app, r.entries);
    }
  }

  lemma MoreUsedAcceptable(s: State, ps1: Pools, ps2: Pools, app: string, m: Entries)
    requires Acceptable(s, ps1, app, m) && Extends(ps1, ps2)
    ensures Acceptable(s, ps2, app, m)
  {
  }

  /** One more entry: either a kept one, or one whose ports were free a moment ago. */
  lemma AddAcceptable(s: State, ps1: Pools, ps2: Pools, app: string, m: Entries, ep: Endpoint)
    requires Inv(s) && Extends(s.pools, ps1) && Acceptable(s, ps1, app, m) && Extends(ps1, ps2)
    requires Owns(ps2, app, ep.name, ep)
    requires Kept(s, app, ep.name, ep) || Fresh(ps1, ep)
    ensures Acceptable(s, ps2, app, m[ep.name := ep])
  {
  }

  lemma ReconcileKeepsInv(s: State, app: string, ls: seq<Listener>)
    requires Inv(s)
    ensures Inv(Reconcile(s, app, ls)) && Pinned(s) <= Pinned(Reconcile(s, app, ls))
  {
    ReconcileListenersSound(s, app, ls, |ls|);
    var r := ReconcileListeners(s.pools, app, EntriesOf(s.registry, app), ls, |ls|);
    if r.failed {
      MoreUsedKeepsInv(s, r.pools);
    } else {
      SwitchKeepsInv(s, r.pools, app, r.entries);
    }
  }

  function NamesOf(eps: seq<Endpoint>): set<string> {
    set i | 0 <= i < |eps| :: eps[i].name
  }

  /** Retained listeners of ls whose guest port differs from the published one. */
  function MovedNames(existing: Entries, ls: seq<Listener>): set<string> {
    set i | 0 <= i < |ls| && ls[i].name in existing && existing[ls[i].name].guestPort != ls[i].guestPort :: ls[i].name
  }

  function ChangedNames(changes: seq<Change>): set<string> {
    set i | 0 <= i < |changes| :: changes[i].after.name
  }

  /** The endpoint is made for its listener, and has kept the ports of before, if there were any. */
  ghost predicate Remade(app: string, existing: Entries, l: Listener, ep: Endpoint) {
    && MadeFor(ep, app, l)
    && (l.name in existing ==> ep.hostBind == existing[l.name].hostBind && ep.publicPort == existing[l.name].publicPort)
  }

  /** Exactly the requested names, each made for its listener, retained ones with their old ports. */
  ghost predicate NamesExactly(r: Reconciling, app: string, existing: Entries, ls: seq<Listener>) {
    && r.entries.Keys == Names(ls)
    && forall i :: 0 <= i < |ls| ==> Remade(app, existing, ls[i], r.entries[ls[i].name])
  }

  /** Added lists each requested name that did not exist, once, as it was entered. */
  ghost predicate AddedExactly(r: Reconciling, existing: Entries, ls: seq<Listener>) {
    && NamesOf(r.added) == Names(ls) - existing.Keys
    && (forall i, j :: 0 <= i < j < |r.added| ==> r.added[i].name != r.added[j].name)
    && (forall i :: 0 <= i < |r.added| ==> r.added[i].name in r.entries && r.entries[r.added[i].name] == r.added[i])
  }

  /** GuestPortChanged lists each retained name whose guest port moved, once, with the entry before and the one stored. */
  ghost predicate MovedExactly(r: Reconciling, existing: Entries, ls: seq<Listener>) {
    && ChangedNames(r.guestChanged) == MovedNames(existing, ls)
    && (forall i, j :: 0 <= i < j < |r.guestChanged| ==> r.guestChanged[i].after.name != r.guestChanged[j].after.name)
    && (forall i :: 0 <= i < |r.guestChanged| ==> Recorded(existing, r.entries, r.guestChanged[i]))
  }

  ghost predicate Recorded(existing: Entries, entries: Entries, c: Change) {
    && c.after.name in existing && c.before == existing[c.after.name]
    && c.after.name in entries && c.after == entries[c.after.name]
  }

  /** ProxyOnlyChanged lists each retained name whose proxy must be restarted, once, as it is stored. */
  ghost predicate RestartedExactly(r: Reconciling, existing: Entries, ls: seq<Listener>) {
    && NamesOf(r.proxyChanged) == RestartNames(existing, ls)
    && (forall i, j :: 0 <= i < j < |r.proxyChanged| ==> r.proxyChanged[i].name != r.proxyChanged[j].name)
    && (forall i :: 0 <= i < |r.proxyChanged| ==>
          r.proxyChanged[i].name in r.entries && r.entries[r.proxyChanged[i].name] == r.proxyChanged[i])
  }

  /** Retained listeners of ls whose flow, protocol or list of middleware names differs from the published one. */
  function RestartNames(existing: Entries, ls: seq<Listener>): set<string> {
    set i | 0 <= i < |ls| && ls[i].name in existing && ConfiguredAnew(existing[ls[i].name], ls[i]) :: ls[i].name
  }

  predicate ConfiguredAnew(before: Endpoint, l: Listener) {
    || before.flow != l.flow || before.protocol != l.protocol || |before.middleware| != |l.middleware|
    || exists i :: 0 <= i < |l.middleware| && before.middleware[i].name != l.middleware[i].name
  }

  lemma RestartMeansConfiguredAnew(before: Endpoint, l: Listener)
    ensures NeedsRestart(before, l) <==> ConfiguredAnew(before, l)
  {
    var a, b := MiddlewareNames(before.middleware), MiddlewareNames(l.middleware);
    if |a| == |b| && a != b {
      var i :| 0 <= i < |a| && a[i] != b[i];
      assert before.middleware[i].name != l.middleware[i].name;
    } else if a == b {
      assert forall i :: 0 <= i < |a| ==> a[i] == before.middleware[i].name && b[i] == l.middleware[i].name;
    }
  }

  ghost predicate ReportsExactly(r: Reconciling, app: string, existing: Entries, ls: seq<Listener>) {
    && NamesExactly(r, app, existing, ls) && AddedExactly(r, existing, ls) && MovedExactly(r, existing, ls)
    && RestartedExactly(r, existing, ls)
    && (r.containerChange <==> r.added != [] || r.guestChanged != [])
  }

  /** For distinct names, a reconcile that did not fail reports exactly the differences. */
  lemma ReconcileReport(ps: Pools, app: string, existing: Entries, ls: seq<Listener>, n: nat)
    requires n <= |ls| && DistinctNames(ls)
    requires !ReconcileListeners(ps, app, existing, ls, n).failed
    requires forall k :: k in existing ==> existing[k].name == k && existing[k].app == app
    ensures ReportsExactly(ReconcileListeners(ps, app, existing, ls, n), app, existing, ls[..n])
  {
    EntriesReport(ps, app, existing, ls, n);
    MovedReport(ps, app, existing, ls, n);
    RestartedReport(ps, app, existing, ls, n);
    FlagReport(ps, app, existing, ls, n);
  }

  lemma {:induction false} EntriesReport(ps: Pools, app: string, existing: Entries, ls: seq<Listener>, n: nat)
    requires n <= |ls| && DistinctNames(ls) && !ReconcileListeners(ps, app, existing, ls, n).failed
    requires forall k :: k in existing ==> existing[k].name == k && existing[k].app == app
    ensures
      var r := ReconcileListeners(ps, app, existing, ls, n);
      NamesExactly(r, app, existing, ls[..n]) && AddedExactly(r, existing, ls[..n])
  {
    if n > 0 {
      EntriesReport(ps, app, existing, ls, n - 1);
      NameIsNew(ls, n - 1);
      EntriesSnoc(ReconcileListeners(ps, app, existing, ls, n - 1), app, existing, ls[..n - 1], ls[n - 1]);
    }
  }

  lemma EntriesSnoc(r: Reconciling, app: string, existing: Entries, ls: seq<Listener>, l: Listener)
    requires NamesExactly(r, app, existing, ls) && AddedExactly(r, existing, ls) && l.name !in Names(ls)
    requires !r.failed && !ReconcileOne(r, app, existing, l).failed
    requires l.name in existing ==> existing[l.name].name == l.name && existing[l.name].app == app
    ensures
      var after := ReconcileOne(r, app, existing, l);
      NamesExactly(after, app, existing, ls + [l]) && AddedExactly(after, existing, ls + [l])
  {
    var after := ReconcileOne(r, app, existing, l);
    if l.name in existing {
      RetainIsRemake(existing[l.name], l);
    } else {
      AddedSnoc(r, app, existing, ls, l);
    }
    EnterName(r, after, after.entries[l.name], app, existing, ls, l);
  }

  lemma {:induction false} MovedReport(ps: Pools, app: string, existing: Entries, ls: seq<Listener>, n: nat)
    requires n <= |ls| && DistinctNames(ls) && !ReconcileListeners(ps, app, existing, ls, n).failed
    requires forall k :: k in existing ==> existing[k].name == k && existing[k].app == app
    ensures MovedExactly(ReconcileListeners(ps, app, existing, ls, n), existing, ls[..n])
  {
    if n > 0 {
      MovedReport(ps, app, existing, ls, n - 1);
      NameIsNew(ls, n - 1);
      var r := ReconcileListeners(ps, app, existing, ls, n - 1);
      if ls[n - 1].name in existing {
        MovedSnoc(r, app, existing, ls[..n - 1], ls[n - 1]);
      } else {
        MovedSnocNew(r, app, existing, ls[..n - 1], ls[n - 1]);
      }
    }
  }

  lemma {:induction false} RestartedReport(ps: Pools, app: string, existing: Entries, ls: seq<Listener>, n: nat)
    requires n <= |ls| && DistinctNames(ls) && !ReconcileListeners(ps, app, existing, ls, n).failed
    requires forall k :: k in existing ==> existing[k].name == k && existing[k].app == app
    ensures RestartedExactly(ReconcileListeners(ps, app, existing, ls, n), existing, ls[..n])
  {
    if n > 0 {
      RestartedReport(ps, app, existing, ls, n - 1);
      NameIsNew(ls, n - 1);
      var r := ReconcileListeners(ps, app, existing, ls, n - 1);
      if ls[n - 1].name in existing {
        RestartSnoc(r, app, existing, ls[..n - 1], ls[n - 1]);
      } else {
        RestartSnocNew(r, app, existing, ls[..n - 1], ls[n - 1]);
      }
    }
  }

  lemma {:induction false} FlagReport(ps: Pools, app: string, existing: Entries, ls: seq<Listener>, n: nat)
    requires n <= |ls| && !ReconcileListeners(ps, app, existing, ls, n).failed
    ensures
      var r := ReconcileListeners(ps, app, existing, ls, n);
      r.containerChange <==> r.added != [] || r.guestChanged != []
  {
    if n > 0 {
      FlagReport(ps, app, existing, ls, n - 1);
    }
  }

  lemma NameIsNew(ls: seq<Listener>, n: nat)
    requires n < |ls| && DistinctNames(ls)
    ensures ls[n].name !in Names(ls[..n]) && ls[..n + 1] == ls[..n] + [ls[n]]
  {
  }

  lemma NamesSnoc(ls: seq<Listener>, l: Listener)
    ensures Names(ls + [l]) == Names(ls) + {l.name}
    ensures forall i :: 0 <= i < |ls| ==> (ls + [l])[i] == ls[i] && ls[i].name in Names(ls)
    ensures (ls + [l])[|ls|] == l
  {
    var more := ls + [l];
    assert more[|ls|] == l && forall i :: 0 <= i < |ls| ==> more[i] == ls[i];
  }

  /** Entering one more name leaves what was said of the earlier ones alone. */
  lemma EnterName(r: Reconciling, r2: Reconciling, ep: Endpoint, app: string, existing: Entries, ls: seq<Listener>, l: Listener)
    requires NamesExactly(r, app, existing, ls) && AddedExactly(r, existing, ls) && l.name !in Names(ls)
    requires r2.entries == r.entries[l.name := ep]
    requires Remade(app, existing, l, ep) && (l.name in existing ==> r2.added == r.added)
    ensures NamesExactly(r2, app, existing, ls + [l])
    ensures l.name in existing ==> AddedExactly(r2, existing, ls + [l])
  {
    NamesSnoc(ls, l);
    if l.name in existing {
      assert Names(ls + [l]) - existing.Keys == Names(ls) - existing.Keys;
    }
    assert forall i :: 0 <= i < |r.added| ==> r.added[i].name in Names(ls);
  }

  lemma MovedSnoc(r: Reconciling, app: string, existing: Entries, ls: seq<Listener>, l: Listener)
    requires MovedExactly(r, existing, ls) && l.name in existing && l.name !in Names(ls)
    requires existing[l.name].name == l.name && existing[l.name].app == app
    ensures MovedExactly(ReconcileRetained(r, app, existing[l.name], l), existing, ls + [l])
  {
    NamesSnoc(ls, l);
    RetainIsRemake(existing[l.name], l);
    var after := ReconcileRetained(r, app, existing[l.name], l);
    var moved := existing[l.name].guestPort != l.guestPort;
    assert MovedNames(existing, ls + [l]) == MovedNames(existing, ls) + if moved then {l.name} else {};
    if moved {
      ChangesSnoc(r.guestChanged, after.guestChanged[|r.guestChanged|]);
    }
    forall i | 0 <= i < |r.guestChanged|
      ensures r.guestChanged[i].after.name in Names(ls) && Recorded(existing, after.entries, r.guestChanged[i])
    {
      assert r.guestChanged[i].after.name in ChangedNames(r.guestChanged);
      assert Recorded(existing, r.entries, r.guestChanged[i]);
    }
  }

  lemma ChangesSnoc(changes: seq<Change>, c: Change)
    ensures ChangedNames(changes + [c]) == ChangedNames(changes) + {c.after.name}
  {
    var more := changes + [c];
    assert more[|changes|] == c && forall i :: 0 <= i < |changes| ==> more[i] == changes[i];
  }

  lemma RestartSnoc(r: Reconciling, app: string, existing: Entries, ls: seq<Listener>, l: Listener)
    requires RestartedExactly(r, existing, ls) && l.name in existing && l.name !in Names(ls) && existing[l.name].name == l.name
    ensures RestartedExactly(ReconcileRetained(r, app, existing[l.name], l), existing, ls + [l])
  {
    NamesSnoc(ls, l);
    var after := ReconcileRetained(r, app, existing[l.name], l);
    var restart := NeedsRestart(existing[l.name], l);
    RestartMeansConfiguredAnew(existing[l.name], l);
    assert RestartNames(existing, ls + [l]) == RestartNames(existing, ls) + if restart then {l.name} else {};
    if restart {
      NamesOfSnoc(r.proxyChanged, after.proxyChanged[|r.proxyChanged|]);
    }
    forall i | 0 <= i < |r.proxyChanged| ensures r.proxyChanged[i].name in Names(ls) {
      assert r.proxyChanged[i].name in NamesOf(r.proxyChanged);
    }
  }

  /** A retained endpoint is the one its listener would get afresh on the same ports. */
  lemma RetainIsRemake(ep: Endpoint, l: Listener)
    requires ep.name == l.name
    ensures Retain(ep, l) == MakeEndpoint(ep.app, l, ep.hostBind, ep.publicPort)
  {
  }

  lemma MovedSnocNew(r: Reconciling, app: string, existing: Entries, ls: seq<Listener>, l: Listener)
    requires MovedExactly(r, existing, ls) && l.name !in existing && !ReconcileNew(r, app, l).failed && !r.failed
    ensures MovedExactly(ReconcileNew(r, app, l), existing, ls + [l])
  {
    NamesSnoc(ls, l);
    assert MovedNames(existing, ls + [l]) == MovedNames(existing, ls);
    forall i | 0 <= i < |r.guestChanged| ensures r.guestChanged[i].after.name != l.name {
      assert Recorded(existing, r.entries, r.guestChanged[i]);
    }
  }

  lemma RestartSnocNew(r: Reconciling, app: string, existing: Entries, ls: seq<Listener>, l: Listener)
    requires RestartedExactly(r, existing, ls)
    requires l.name !in existing && l.name !in Names(ls) && !ReconcileNew(r, app, l).failed && !r.failed
    ensures RestartedExactly(ReconcileNew(r, app, l), existing, ls + [l])
  {
    NamesSnoc(ls, l);
    assert RestartNames(existing, ls + [l]) == RestartNames(existing, ls);
    forall i | 0 <= i < |r.proxyChanged| ensures r.proxyChanged[i].name != l.name {
      assert r.proxyChanged[i].name in NamesOf(r.proxyChanged);
    }
  }

  lemma NamesOfSnoc(eps: seq<Endpoint>, ep: Endpoint)
    ensures NamesOf(eps + [ep]) == NamesOf(eps) + {ep.name}
    ensures forall i :: 0 <= i < |eps| ==> (eps + [ep])[i] == eps[i] && eps[i].name in NamesOf(eps)
  {
    var more := eps + [ep];
    assert more[|eps|] == ep && forall i :: 0 <= i < |eps| ==> more[i] == eps[i];
  }

  lemma AddedSnoc(r: Reconciling, app: string, existing: Entries, ls: seq<Listener>, l: Listener)
    requires AddedExactly(r, existing, ls) && l.name !in Names(ls) && l.name !in existing
    requires !ReconcileNew(r, app, l).failed && !r.failed
    ensures AddedExactly(ReconcileNew(r, app, l), existing, ls + [l])
  {
    NamesSnoc(ls, l);
    var after := ReconcileNew(r, app, l);
    var ep := after.entries[l.name];
    assert after.added == r.added + [ep] && ep.name == l.name;
    NamesOfSnoc(r.added, ep);
    assert Names(ls + [l]) - existing.Keys == (Names(ls) - existing.Keys) + {l.name};
  }

  // ---------------------------------------------------------------- whole runs

  datatype Op =
    | Allocate(app: string, ls: seq<Listener>)
    | Reconciled(app: string, ls: seq<Listener>)
    | Restore(app: string, ls: seq<Listener>, hostByGuest: map<int, int>)
    | Remove(app: string)
    | ReservePort(port: int)

  ghost function Step(s: State, op: Op): State {
    match op
    case Allocate(app, ls) => AllocateForApp(s, app, ls)
    case Reconciled(app, ls) => Reconcile(s, app, ls)
    case Restore(app, ls, hostByGuest) => RestoreFromPodman(s, app, ls, hostByGuest)
    case Remove(app) => RemoveApp(s, app)
    case ReservePort(port) => ReserveHostPort(s, port)
  }

  ghost function Run(s: State, ops: seq<Op>): State
    decreases |ops|
  {
    if ops == [] then s else Run(Step(s, ops[0]), ops[1..])
  }

  lemma ReserveKeepsInv(s: State, port: int)
    requires Inv(s)
    ensures Inv(ReserveHostPort(s, port)) && Pinned(s) <= Pinned(ReserveHostPort(s, port))
    ensures s.pools.host.Free(port) ==> port in Pinned(ReserveHostPort(s, port))
  {
  }

  lemma StepKeepsInv(s: State, op: Op)
    requires Inv(s)
    ensures Inv(Step(s, op)) && Pinned(s) <= Pinned(Step(s, op))
  {
    match op
    case Allocate(app, ls) => AllocateKeepsInv(s, app, ls);
    case Reconciled(app, ls) => ReconcileKeepsInv(s, app, ls);
    case Restore(app, ls, hostByGuest) => RestoreKeepsInv(s, app, ls, hostByGuest);
    case Remove(app) => RemoveKeepsInv(s, app);
    case ReservePort(port) => ReserveKeepsInv(s, port);
  }

  /** Every run keeps port ownership exclusive, and a pinned host port stays pinned for ever. */
  lemma {:induction false} RunKeepsInv(s: State, ops: seq<Op>)
    requires Inv(s)
    ensures Inv(Run(s, ops)) && Pinned(s) <= Pinned(Run(s, ops))
    decreases |ops|
  {
    if ops != [] {
      StepKeepsInv(s, ops[0]);
      RunKeepsInv(Step(s, ops[0]), ops[1..]);
    }
  }

  function AppOf(op: Op): Option<string> {
    match op
    case Allocate(app, _) => Some(app)
    case Reconciled(app, _) => Some(app)
    case Restore(app, _, _) => Some(app)
    case Remove(app) => Some(app)
    case ReservePort(_) => None
  }

  /** However long the others go on, an app they do not name keeps its entries. */
  lemma {:induction false} OthersAreLeftAlone(s: State, ops: seq<Op>, a: string)
    requires forall i :: 0 <= i < |ops| ==> AppOf(ops[i]) != Some(a)
    ensures a in Run(s, ops).registry <==> a in s.registry
    ensures EntriesOf(Run(s, ops).registry, a) == EntriesOf(s.registry, a)
    decreases |ops|
  {
    if ops != [] {
      OthersAreLeftAlone(Step(s, ops[0]), ops[1..], a);
    }
  }

  /** A restore that fails or finds nothing leaves the app unregistered; otherwise the app has exactly the names restored,
      the last endpoint of each. */
  lemma RestoredEntries(s: State, app: string, ls: seq<Listener>, hostByGuest: map<int, int>, n: string)
    ensures
      var r := RestoreListeners(RemoveApp(s, app).pools, app, ls, hostByGuest, |ls|);
      var t := RestoreFromPodman(s, app, ls, hostByGuest);
      && (r.failed ==> app !in t.registry)
      && (Listed(t.registry, app, n) <==> !r.failed && n in NamesOf(r.endpoints))
      && (Listed(t.registry, app, n) ==>
            exists i :: 0 <= i < |r.endpoints| && r.endpoints[i].name == n && t.registry[app][n] == r.endpoints[i]
                        && forall j :: i < j < |r.endpoints| ==> r.endpoints[j].name != n)
  {
    var r := RestoreListeners(RemoveApp(s, app).pools, app, ls, hostByGuest, |ls|);
    Removed(s, app);
    if n in ByName(r.endpoints) {
      var i := ByNameSound(r.endpoints, n);
    } else {
      forall i | 0 <= i < |r.endpoints| ensures r.endpoints[i].name != n {
        ByNameComplete(r.endpoints, i);
      }
    }
  }

  /** From a fresh manager: any two endpoints of any run share no port, and every port lies in its range. */
  lemma EveryRunIsConflictFree(ops: seq<Op>, a: string, n: string, b: string, k: string)
    requires Listed(Run(Initial(), ops).registry, a, n) && Listed(Run(Initial(), ops).registry, b, k)
    ensures
      var s := Run(Initial(), ops);
      var x, y := s.registry[a][n], s.registry[b][k];
      && (a != b || n != k ==> x.hostBind != y.hostBind && x.publicPort != y.publicPort)
      && 15000 <= x.hostBind <= 25000 && 35000 <= x.publicPort <= 45000
      && x.hostBind in s.pools.host.used && x.publicPort in s.pools.public.used
  {
    RunKeepsInv(Initial(), ops);
    var s := Run(Initial(), ops);
    assert Owns(s.pools, a, n, s.registry[a][n]);
  }

  /** Allocation publishes each listener it has ports for as that listener asks, the last one of a name. */
  lemma AllocatedAsAsked(s: State, app: string, ls: seq<Listener>, k: nat)
    requires k < |TakePairs(s.pools, |ls|).pairs| <= |ls|
    requires forall j :: k < j < |TakePairs(s.pools, |ls|).pairs| ==> ls[j].name != ls[k].name
    ensures
      var t, pair := AllocateForApp(s, app, ls), TakePairs(s.pools, |ls|).pairs[k];
      && Listed(t.registry, app, ls[k].name)
      && var ep := t.registry[app][ls[k].name];
      MadeFor(ep, app, ls[k]) && ep.hostBind == pair.host && ep.publicPort == pair.public
  {
    var eps := EndpointsOf(app, ls, TakePairs(s.pools, |ls|).pairs);
    ByNameComplete(eps, k);
  }

  /** In every run the next public port handed out is the least one not in use. */
  lemma PublicPortsAreFirstFit(ops: seq<Op>)
    ensures
      var public := Run(Initial(), ops).pools.public;
      public.NextFree() == public.LeastFree(35000, 45000)
  {
    RunKeepsInv(Initial(), ops);
    PackedPoolIsFirstFit(Run(Initial(), ops).pools.public);
  }

  /** The port is in use, published by nobody, and not the next one to be handed out. */
  ghost predicate OutOfCirculation(s: State, port: int) {
    && port in s.pools.host.used && s.pools.host.NextFree() != Some(port)
    && forall a, n :: Listed(s.registry, a, n) ==> s.registry[a][n].hostBind != port
  }

  /** A pinned port is never published, freed or handed out by anything that follows. */
  lemma PinnedIsGone(s: State, port: int, ops: seq<Op>)
    requires Inv(s) && port in Pinned(s)
    ensures OutOfCirculation(Run(s, ops), port)
  {
    RunKeepsInv(s, ops);
    assert port in Pinned(Run(s, ops));
    NextFreeIsFirstInCyclicOrder(Run(s, ops).pools.host);
  }

  /** A port reserved while free is never published, freed or handed out by anything that follows. */
  lemma ReservedPortIsGone(s: State, port: int, ops: seq<Op>)
    requires Inv(s) && s.pools.host.Free(port)
    ensures OutOfCirculation(Run(ReserveHostPort(s, port), ops), port)
  {
    ReserveKeepsInv(s, port);
    PinnedIsGone(ReserveHostPort(s, port), port, ops);
  }

  /** Removal undoes a successful allocation exactly for distinct names and an unregistered app. */
  lemma AllocateThenRemoveIff(s: State, app: string, ls: seq<Listener>)
    requires Inv(s) && |TakePairs(s.pools, |ls|).pairs| == |ls|
    ensures
      var t := RemoveApp(AllocateForApp(s, app, ls), app);
      (&& t.registry == s.registry
       && t.pools.host.used == s.pools.host.used && t.pools.public.used == s.pools.public.used)
      <==> DistinctNames(ls) && app !in s.registry
  {
    if app !in s.registry && ls != [] {
      ReleasedPorts(s, app, ls);
      FreshlyGrown(s, app, ls);
      UndoneIff(s.pools, TakePairs(s.pools, |ls|), app, ls);
    }
  }

  // ---------------------------------------------------------------- ports an allocation loses

  /** Host ports of the entries of e whose names m has too, or has not. */
  function HostsShared(e: Entries, m: Entries, shared: bool): set<int> {
    set n | n in e && (n in m) == shared :: e[n].hostBind
  }

  /** The entries an allocation makes for an app, and those the app then has. */
  ghost function NewEntries(s: State, app: string, ls: seq<Listener>): Entries {
    PairCount(s.pools, |ls|);
    ByName(EndpointsOf(app, ls, TakePairs(s.pools, |ls|).pairs))
  }

  lemma OverlaidHosts(e: Entries, m: Entries)
    ensures HostsIn(e) == HostsShared(e, m, true) + HostsShared(e, m, false)
    ensures HostsIn(e + m) == HostsShared(e, m, false) + HostsIn(m)
  {
    forall p | p in HostsShared(e, m, false) + HostsIn(m) ensures p in HostsIn(e + m) {
      if p in HostsIn(m) {
        var n :| n in m && m[n].hostBind == p;
        assert n in e + m && (e + m)[n] == m[n];
      } else {
        var n :| n in e && n !in m && e[n].hostBind == p;
        assert n in e + m && (e + m)[n] == e[n];
      }
    }
    forall p | p in HostsIn(e + m) ensures p in HostsShared(e, m, false) + HostsIn(m) {
      var n :| n in e + m && (e + m)[n].hostBind == p;
      assert if n in m then (e + m)[n] == m[n] else (e + m)[n] == e[n];
    }
  }

  /** An app's host ports are in use, no two of its names share one, and no other app has one. */
  lemma OwnHosts(s: State, app: string, m: Entries)
    requires Inv(s)
    ensures
      var e := EntriesOf(s.registry, app);
      && HostsIn(e) <= s.pools.host.used && HostsIn(e) !! AllHosts(s.registry - {app})
      && HostsShared(e, m, true) !! HostsShared(e, m, false)
      && AllHosts(s.registry) == AllHosts(s.registry - {app}) + HostsIn(e)
      && AllHosts(s.registry - {app}) <= s.pools.host.used
  {
    var e: Entries, others: map<string, Entries> := EntriesOf(s.registry, app), s.registry - {app};
    forall n | n in e ensures Listed(s.registry, app, n) && e[n].hostBind in s.pools.host.used {
      assert Listed(s.registry, app, n) && Owns(s.pools, app, n, e[n]);
    }
    forall b, k | b in others && k in others[b]
      ensures others[b][k].hostBind in s.pools.host.used && others[b][k].hostBind !in HostsIn(e)
    {
      assert Listed(s.registry, b, k) && Owns(s.pools, b, k, s.registry[b][k]);
      assert forall n :: n in e ==> Listed(s.registry, app, n) && Apart(e[n], others[b][k]);
    }
    assert forall n, k :: n in e && k in e && n != k ==> Listed(s.registry, app, n) && Listed(s.registry, app, k) && Apart(e[n], e[k]);
    OwnedOrOthers(s.registry, app);
  }

  lemma OwnedOrOthers(registry: map<string, Entries>, app: string)
    ensures AllHosts(registry) == AllHosts(registry - {app}) + HostsIn(EntriesOf(registry, app))
  {
    var others: map<string, Entries> := registry - {app};
    forall p | p in AllHosts(registry) ensures p in AllHosts(others) + HostsIn(EntriesOf(registry, app)) {
      var b, k :| b in registry && k in registry[b] && registry[b][k].hostBind == p;
      assert b != app ==> b in others && others[b] == registry[b];
    }
  }

  lemma Enrolled(registry: map<string, Entries>, app: string, eps: seq<Endpoint>)
    ensures EntriesOf(Enroll(registry, app, eps), app) == EntriesOf(registry, app) + ByName(eps)
    ensures Enroll(registry, app, eps) - {app} == registry - {app}
  {
    var e := EntriesOf(registry, app);
    if eps == [] {
      assert e + ByName(eps) == e;
    }
  }

  lemma Removed(s: State, app: string)
    ensures
      var t := RemoveApp(s, app);
      t.registry == s.registry - {app} && t.pools.host.used == s.pools.host.used - HostsIn(EntriesOf(s.registry, app))
  {
    if app !in s.registry {
      assert HostsIn(EntriesOf(s.registry, app)) == {} && s.registry - {app} == s.registry;
    }
  }

  // ---------------------------------------------------------------- every port lost, operation by operation

  /** Host ports that an operation leaves in use without an owner: those of replaced and of removed entries, those handed
      out for a name used again, and all that a reconcile or restore had handed out before it failed. */
  ghost function Lost(s: State, op: Op): set<int> {
    match op
    case Allocate(app, ls) =>
      var m := NewEntries(s, app, ls);
      HostsShared(EntriesOf(s.registry, app), m, true) + (Hosts(TakePairs(s.pools, |ls|).pairs) - HostsIn(m))
    case Reconciled(app, ls) =>
      var existing := EntriesOf(s.registry, app);
      var r := ReconcileListeners(s.pools, app, existing, ls, |ls|);
      if r.failed then HostsOf(r.added) else HostsShared(existing, r.entries, false) + (HostsOf(r.added) - HostsIn(r.entries))
    case Restore(app, ls, hostByGuest) =>
      var r := RestoreListeners(RemoveApp(s, app).pools, app, ls, hostByGuest, |ls|);
      if r.failed then HostsOf(r.endpoints) else HostsOf(r.endpoints) - HostsIn(ByName(r.endpoints))
    case Remove(_) => {}
    case ReservePort(p) => if s.pools.host.Free(p) then {p} else {}
  }

  /** In every reachable state, each operation loses exactly those host ports and recovers none. */
  lemma PinnedExactly(s: State, op: Op)
    requires Inv(s)
    ensures Pinned(Step(s, op)) == Pinned(s) + Lost(s, op)
  {
    match op
    case Allocate(app, ls) => AllocatePinned(s, app, ls);
    case Reconciled(app, ls) => ReconcilePinned(s, app, ls);
    case Restore(app, ls, hostByGuest) => RestorePinned(s, app, ls, hostByGuest);
    case Remove(app) => RemovePinned(s, app);
    case ReservePort(p) =>
  }

  lemma RemovePinned(s: State, app: string)
    requires Inv(s)
    ensures Pinned(RemoveApp(s, app)) == Pinned(s)
    ensures
      var t := RemoveApp(s, app);
      AllHosts(t.registry) !! HostsIn(EntriesOf(s.registry, app)) && AllHosts(t.registry) <= t.pools.host.used
  {
    Removed(s, app);
    OwnHosts(s, app, map[]);
  }

  /** What is pinned after an app switched its entries from e to entries. */
  lemma SwitchedPinned(s: State, ps: Pools, app: string, entries: Entries, gained: set<int>)
    requires Inv(s) && ps.host.used == s.pools.host.used + gained && gained !! s.pools.host.used
    requires HostsIn(entries) <= gained + HostsShared(EntriesOf(s.registry, app), entries, true)
    ensures
      Pinned(State(ps, s.registry[app := entries]))
      == Pinned(s) + (HostsIn(EntriesOf(s.registry, app)) - HostsIn(entries)) + (gained - HostsIn(entries))
  {
    var e, registry := EntriesOf(s.registry, app), s.registry[app := entries];
    OwnHosts(s, app, entries);
    OverlaidHosts(e, entries);
    OwnedOrOthers(registry, app);
    assert registry - {app} == s.registry - {app};
  }

  lemma AllocatePinned(s: State, app: string, ls: seq<Listener>)
    requires Inv(s)
    ensures Pinned(AllocateForApp(s, app, ls)) == Pinned(s) + Lost(s, Op.Allocate(app, ls))
  {
    var e, m, r := EntriesOf(s.registry, app), NewEntries(s, app, ls), TakePairs(s.pools, |ls|);
    NewHosts(s, app, ls);
    if r.pairs == [] {
      assert m == map[] && HostsShared(e, m, true) == {} && Hosts(r.pairs) == {};
    } else {
      OverlayPinned(s, r.pools, app, m, Hosts(r.pairs));
    }
  }

  lemma OverlayPinned(s: State, ps: Pools, app: string, m: Entries, gained: set<int>)
    requires Inv(s) && ps.host.used == s.pools.host.used + gained && gained !! s.pools.host.used && HostsIn(m) <= gained
    ensures
      var e := EntriesOf(s.registry, app);
      Pinned(State(ps, s.registry[app := e + m])) == Pinned(s) + (HostsShared(e, m, true) + (gained - HostsIn(m)))
  {
    var e := EntriesOf(s.registry, app);
    OverlaidHosts(e, m);
    OwnHosts(s, app, m);
    assert HostsShared(e, e + m, true) == HostsIn(e);
    SwitchedPinned(s, ps, app, e + m, gained);
    OverlaySets(HostsShared(e, m, true), HostsShared(e, m, false), gained, HostsIn(m));
  }

  lemma OverlaySets(replaced: set<int>, kept: set<int>, gained: set<int>, entered: set<int>)
    requires replaced !! kept && replaced !! gained && kept !! gained && entered <= gained
    ensures (replaced + kept) - (kept + entered) == replaced && gained - (kept + entered) == gained - entered
  {
  }

  /** Removing an app after an allocation loses, for good, exactly the host ports of the entries that the allocation
      replaced and those it handed out for a name it used again. */
  lemma LostPortsExactly(s: State, app: string, ls: seq<Listener>)
    requires Inv(s)
    ensures
      var e, m := EntriesOf(s.registry, app), NewEntries(s, app, ls);
      Pinned(RemoveApp(AllocateForApp(s, app, ls), app))
      == Pinned(s) + HostsShared(e, m, true) + (Hosts(TakePairs(s.pools, |ls|).pairs) - HostsIn(m))
  {
    AllocatePinned(s, app, ls);
    AllocateKeepsInv(s, app, ls);
    RemovePinned(AllocateForApp(s, app, ls), app);
  }

  /** The ports a merge has handed out so far; every entry sits on one of them or on the port it had. */
  ghost predicate Gains(s: State, app: string, r: Reconciling) {
    var existing := EntriesOf(s.registry, app);
    && r.pools.host.used == s.pools.host.used + HostsOf(r.added) && HostsOf(r.added) !! s.pools.host.used
    && forall n :: n in r.entries ==>
         if n in existing then r.entries[n].hostBind == existing[n].hostBind else r.entries[n].hostBind in HostsOf(r.added)
  }

  lemma NothingGained(s: State, app: string)
    ensures Gains(s, app, Reconciling(s.pools, map[], [], [], [], false, false))
  {
    assert HostsOf([]) == {};
  }

  lemma {:induction false} MergeGains(s: State, app: string, ls: seq<Listener>, n: nat)
    requires Inv(s) && n <= |ls|
    ensures Gains(s, app, ReconcileListeners(s.pools, app, EntriesOf(s.registry, app), ls, n))
  {
    if n == 0 {
      NothingGained(s, app);
    } else {
      MergeGains(s, app, ls, n - 1);
      ReconcileListenersSound(s, app, ls, n - 1);
      var r := ReconcileListeners(s.pools, app, EntriesOf(s.registry, app), ls, n - 1);
      OneGains(s, app, r, ls[n - 1], ReconcileListeners(s.pools, app, EntriesOf(s.registry, app), ls, n));
    }
  }

  lemma OneGains(s: State, app: string, r: Reconciling, l: Listener, after: Reconciling)
    requires Inv(s) && MergesSoundly(s, app, r) && Gains(s, app, r)
    requires after == ReconcileOne(r, app, EntriesOf(s.registry, app), l)
    ensures Gains(s, app, after)
  {
    if !r.failed && l.name !in EntriesOf(s.registry, app) {
      TakePairSound(r.pools);
      var one := TakePair(r.pools);
      if one.pair.Some? {
        PortsOfOneMoreEndpoint(r.added, MakeEndpoint(app, l, one.pair.value.host, one.pair.value.public));
      }
    }
  }

  lemma ReconcilePinned(s: State, app: string, ls: seq<Listener>)
    requires Inv(s)
    ensures Pinned(Reconcile(s, app, ls)) == Pinned(s) + Lost(s, Reconciled(app, ls))
  {
    var e := EntriesOf(s.registry, app);
    var r := ReconcileListeners(s.pools, app, e, ls, |ls|);
    MergeGains(s, app, ls, |ls|);
    if r.failed {
      OwnHosts(s, app, map[]);
    } else {
      MergedPinned(s, app, r);
    }
  }

  lemma MergedPinned(s: State, app: string, r: Reconciling)
    requires Inv(s) && Gains(s, app, r)
    ensures
      var e := EntriesOf(s.registry, app);
      Pinned(State(r.pools, s.registry[app := r.entries]))
      == Pinned(s) + (HostsShared(e, r.entries, false) + (HostsOf(r.added) - HostsIn(r.entries)))
  {
    var e, m := EntriesOf(s.registry, app), r.entries;
    OwnHosts(s, app, m);
    OverlaidHosts(e, m);
    forall p | p in HostsIn(m) ensures p in HostsOf(r.added) + HostsShared(e, m, true) {
      var n :| n in m && m[n].hostBind == p;
      assert n in e ==> e[n].hostBind in HostsShared(e, m, true);
    }
    forall p | p in HostsShared(e, m, true) ensures p in HostsIn(m) {
      var n :| n in e && n in m && e[n].hostBind == p;
      assert m[n].hostBind == p;
    }
    SwitchedPinned(s, r.pools, app, m, HostsOf(r.added));
    assert HostsIn(e) - HostsIn(m) == HostsShared(e, m, false);
  }

  /** Reconciling a listener away does not give its ports back: nothing ever publishes its host port again. */
  lemma RemovedListenerLosesItsPort(s: State, app: string, n: string, later: seq<Op>)
    requires Inv(s) && Listed(s.registry, app, n)
    ensures n !in EntriesOf(Reconcile(s, app, []).registry, app)
    ensures OutOfCirculation(Run(Reconcile(s, app, []), later), s.registry[app][n].hostBind)
  {
    var e := EntriesOf(s.registry, app);
    ReconcilePinned(s, app, []);
    ReconcileKeepsInv(s, app, []);
    assert e[n].hostBind in HostsShared(e, map[], false);
    PinnedIsGone(Reconcile(s, app, []), e[n].hostBind, later);
  }

  lemma RestorePinned(s: State, app: string, ls: seq<Listener>, hostByGuest: map<int, int>)
    requires Inv(s)
    ensures Pinned(RestoreFromPodman(s, app, ls, hostByGuest)) == Pinned(s) + Lost(s, Restore(app, ls, hostByGuest))
  {
    var clean := RemoveApp(s, app);
    var r := RestoreListeners(clean.pools, app, ls, hostByGuest, |ls|);
    RemovePinned(s, app);
    RemoveKeepsInv(s, app);
    RestoreExactly(clean.pools, app, ls, hostByGuest, |ls|);
    RestoreListenersSound(clean, app, ls, hostByGuest, |ls|);
    if r.failed || r.endpoints == [] {
      AbandonedPinned(clean, r);
    } else {
      RestoredPinned(clean, app, r);
    }
  }

  lemma AbandonedPinned(clean: State, r: Restoring)
    requires Inv(clean) && r.pools.host.used == clean.pools.host.used + HostsOf(r.endpoints)
    requires FreshApart(clean.pools, r.endpoints)
    ensures Pinned(State(r.pools, clean.registry)) == Pinned(clean) + HostsOf(r.endpoints)
    ensures r.endpoints == [] ==> HostsOf(r.endpoints) == {} && HostsIn(ByName(r.endpoints)) == {}
  {
    OwnHosts(clean, "", map[]);
    forall i | 0 <= i < |r.endpoints| ensures r.endpoints[i].hostBind !in AllHosts(clean.registry) {
      assert Fresh(clean.pools, r.endpoints[i]);
    }
  }

  lemma RestoredPinned(clean: State, app: string, r: Restoring)
    requires Inv(clean) && app !in clean.registry
    requires r.pools.host.used == clean.pools.host.used + HostsOf(r.endpoints)
    requires FreshApart(clean.pools, r.endpoints)
    ensures
      var m := ByName(r.endpoints);
      Pinned(State(r.pools, clean.registry[app := m])) == Pinned(clean) + (HostsOf(r.endpoints) - HostsIn(m))
  {
    var m := ByName(r.endpoints);
    IndexIsSound(r.endpoints, m);
    assert forall i :: 0 <= i < |r.endpoints| ==> Fresh(clean.pools, r.endpoints[i]);
    assert EntriesOf(clean.registry, app) == map[] && HostsIn(map[]) == {};
    SwitchedPinned(clean, r.pools, app, m, HostsOf(r.endpoints));
  }

  /** New entries sit on ports that the allocation handed out, and those were free. */
  lemma NewHosts(s: State, app: string, ls: seq<Listener>)
    requires Inv(s)
    ensures
      var pairs := TakePairs(s.pools, |ls|).pairs;
      && HostsIn(NewEntries(s, app, ls)) <= Hosts(pairs) && Hosts(pairs) !! s.pools.host.used
      && TakePairs(s.pools, |ls|).pools.host.used == s.pools.host.used + Hosts(pairs)
  {
    AllocatedEndpoints(s, app, ls);
    var pairs := TakePairs(s.pools, |ls|).pairs;
    var eps := EndpointsOf(app, ls, pairs);
    forall n | n in ByName(eps) ensures ByName(eps)[n].hostBind in Hosts(pairs) {
      var i := ByNameSound(eps, n);
      assert eps[i].hostBind == pairs[i].host;
    }
    forall i | 0 <= i < |pairs| ensures pairs[i].host !in s.pools.host.used {
      assert s.pools.host.Free(pairs[i].host);
    }
  }

  /** An entry that an allocation replaces loses its host port: once the app is removed, nothing ever publishes the
      port, frees it or hands it out. */
  lemma ReplacedPortIsLost(s: State, app: string, ls: seq<Listener>, n: string, later: seq<Op>)
    requires Inv(s) && Listed(s.registry, app, n) && n in NewEntries(s, app, ls)
    ensures OutOfCirculation(Run(RemoveApp(AllocateForApp(s, app, ls), app), later), s.registry[app][n].hostBind)
  {
    LostPortsExactly(s, app, ls);
    AllocateKeepsInv(s, app, ls);
    RemoveKeepsInv(AllocateForApp(s, app, ls), app);
    assert s.registry[app][n].hostBind in HostsShared(EntriesOf(s.registry, app), NewEntries(s, app, ls), true);
    PinnedIsGone(RemoveApp(AllocateForApp(s, app, ls), app), s.registry[app][n].hostBind, later);
  }

  /** The first listener of an allocation that got anywhere is registered. */
  lemma FirstIsRegistered(s: State, app: string, ls: seq<Listener>)
    requires ls != [] && TakePairs(s.pools, |ls|).pairs != []
    ensures ls[0].name in NewEntries(s, app, ls) && Listed(AllocateForApp(s, app, ls).registry, app, ls[0].name)
  {
    PairCount(s.pools, |ls|);
    ByNameComplete(EndpointsOf(app, ls, TakePairs(s.pools, |ls|).pairs), 0);
  }

  /** How an installation gets there: an allocation that runs out of ports half-way leaves the app registered; another
      app makes room; the next attempt replaces what the first one left, and its host port is lost for good. */
  lemma LeftoverLosesAPort(s: State, app: string, ls: seq<Listener>, other: string, later: seq<Op>)
    requires Inv(s) && other != app && ls != [] && TakePairs(s.pools, |ls|).pairs != []
    requires TakePairs(RemoveApp(AllocateForApp(s, app, ls), other).pools, |ls|).pairs != []
    ensures
      var s1 := AllocateForApp(s, app, ls);
      var t := Run(RemoveApp(AllocateForApp(RemoveApp(s1, other), app, ls), app), later);
      Listed(s1.registry, app, ls[0].name) && OutOfCirculation(t, s1.registry[app][ls[0].name].hostBind)
  {
    var s1 := AllocateForApp(s, app, ls);
    FirstIsRegistered(s, app, ls);
    AllocateKeepsInv(s, app, ls);
    LeftoverIsReplaced(s1, app, ls, other, later);
  }

  lemma LeftoverIsReplaced(s: State, app: string, ls: seq<Listener>, other: string, later: seq<Op>)
    requires Inv(s) && other != app && ls != [] && Listed(s.registry, app, ls[0].name)
    requires TakePairs(RemoveApp(s, other).pools, |ls|).pairs != []
    ensures OutOfCirculation(Run(RemoveApp(AllocateForApp(RemoveApp(s, other), app, ls), app), later),
                             s.registry[app][ls[0].name].hostBind)
  {
    var room := RemoveApp(s, other);
    RemoveKeepsInv(s, other);
    Removed(s, other);
    FirstIsRegistered(room, app, ls);
    assert Listed(room.registry, app, ls[0].name) && room.registry[app] == s.registry[app];
    ReplacedPortIsLost(room, app, ls, ls[0].name, later);
  }

  lemma FirstTwoPairs()
    ensures
      var r := TakePairs(Initial().pools, 2);
      && r.pairs == [Pair(15000, 35000), Pair(15001, 35001)]
      && r.pools.host.used == {15000, 15001} && r.pools.public.used == {35000, 35001}
  {
    var ps := Initial().pools;
    var first := TakePair(ps);
    assert first.pair == Some(Pair(15000, 35000));
    var second := TakePair(first.pools);
    assert second.pair == Some(Pair(15001, 35001));
    assert TakePairs(ps, 0) == PairsResult(ps, []);
    assert TakePairs(ps, 1) == PairsResult(first.pools, [Pair(15000, 35000)]);
  }

  lemma LastOfTwo(app: string, l: Listener, p: Pair, q: Pair)
    ensures
      var m := ByName(EndpointsOf(app, [l, l], [p, q]));
      HostsIn(m) == {q.host} && PublicsIn(m) == {q.public}
  {
    var x, y := MakeEndpoint(app, l, p.host, p.public), MakeEndpoint(app, l, q.host, q.public);
    assert EndpointsOf(app, [l, l], [p, q]) == [x, y];
    assert [x, y][..1] == [x] && [x][..0] == [];
    assert ByName([x]) == map[x.name := x];
    var m := ByName([x, y]);
    assert m == map[y.name := y] && m[y.name] == y;
  }

  /** A name used twice loses a port: removal gives back only the last one registered under it. */
  lemma RepeatedNameLosesAPort(app: string, l: Listener)
    ensures
      var t := RemoveApp(AllocateForApp(Initial(), app, [l, l]), app);
      t.registry == map[] && t.pools.host.used == {15000} && t.pools.public.used == {35000}
  {
    FirstTwoPairs();
    LastOfTwo(app, l, Pair(15000, 35000), Pair(15001, 35001));
    ReleasedPorts(Initial(), app, [l, l]);
  }

  /** The first pair ever handed out. */
  lemma FirstPair(app: string, l: Listener)
    ensures
      var s := AllocateForApp(Initial(), app, [l]);
      && s.registry == map[app := map[l.name := MakeEndpoint(app, l, 15000, 35000)]]
      && s.pools.host.used == {15000} && TakePairs(s.pools, 1).pairs == [Pair(15001, 35001)]
  {
    var ps := Initial().pools;
    var first := TakePair(ps);
    assert first.pair == Some(Pair(15000, 35000));
    assert TakePairs(ps, 0) == PairsResult(ps, []);
    assert TakePairs(ps, 1) == PairsResult(first.pools, [Pair(15000, 35000)]);
    var ep := MakeEndpoint(app, l, 15000, 35000);
    assert EndpointsOf(app, [l], [Pair(15000, 35000)]) == [ep];
    assert [ep][..0] == [] && ByName([ep]) == map[l.name := ep];
    assert map[] + ByName([ep]) == map[l.name := ep];
    assert TakePair(first.pools).pair == Some(Pair(15001, 35001));
    assert TakePairs(first.pools, 0) == PairsResult(first.pools, []);
  }

  /** So does an app registered twice: from a fresh manager, 15000 is lost. */
  lemma SecondAllocationLosesAPort(app: string, l: Listener)
    ensures 15000 in Pinned(RemoveApp(AllocateForApp(AllocateForApp(Initial(), app, [l]), app, [l]), app))
  {
    var s := AllocateForApp(Initial(), app, [l]);
    AllocateKeepsInv(Initial(), app, [l]);
    FirstPair(app, l);
    FirstIsRegistered(s, app, [l]);
    LostPortsExactly(s, app, [l]);
    var e := EntriesOf(s.registry, app);
    assert l.name in e && e[l.name].hostBind == 15000;
    assert 15000 in HostsShared(e, NewEntries(s, app, [l]), true);
  }

  lemma FreshlyGrown(s: State, app: string, ls: seq<Listener>)
    requires Inv(s) && |TakePairs(s.pools, |ls|).pairs| == |ls|
    ensures
      var r := TakePairs(s.pools, |ls|);
      Grown(s.pools, r) && FreshApart(s.pools, EndpointsOf(app, ls, r.pairs))
  {
    AllocatedEndpoints(s, app, ls);
  }

  lemma UndoneIff(ps: Pools, r: PairsResult, app: string, ls: seq<Listener>)
    requires |r.pairs| == |ls| && Grown(ps, r) && FreshApart(ps, EndpointsOf(app, ls, r.pairs))
    ensures
      var m := ByName(EndpointsOf(app, ls, r.pairs));
      r.pools.host.used - HostsIn(m) == ps.host.used && r.pools.public.used - PublicsIn(m) == ps.public.used
      <==> DistinctNames(ls)
  {
    var eps := EndpointsOf(app, ls, r.pairs);
    PortsOfEndpoints(app, ls, r.pairs);
    if DistinctNames(ls) {
      UndoneForDistinctNames(ps, r, eps);
    } else {
      var i, j :| 0 <= i < j < |ls| && ls[i].name == ls[j].name;
      LostForRepeatedName(ps, r, eps, i, j);
    }
  }

  /** What allocating for an unregistered app and removing it again releases. */
  lemma ReleasedPorts(s: State, app: string, ls: seq<Listener>)
    requires |TakePairs(s.pools, |ls|).pairs| == |ls| > 0 && app !in s.registry
    ensures
      var r := TakePairs(s.pools, |ls|);
      var m := ByName(EndpointsOf(app, ls, r.pairs));
      var t := RemoveApp(AllocateForApp(s, app, ls), app);
      && t.registry == s.registry
      && t.pools.host.used == r.pools.host.used - HostsIn(m)
      && t.pools.public.used == r.pools.public.used - PublicsIn(m)
  {
    var r := TakePairs(s.pools, |ls|);
    var m := ByName(EndpointsOf(app, ls, r.pairs));
    assert EntriesOf(s.registry, app) + m == m;
    assert s.registry[app := m] - {app} == s.registry;
  }

  lemma UndoneForDistinctNames(ps: Pools, r: PairsResult, eps: seq<Endpoint>)
    requires Grown(ps, r) && HostsOf(eps) == Hosts(r.pairs) && PublicsOf(eps) == Publics(r.pairs)
    requires forall i, j :: 0 <= i < j < |eps| ==> eps[i].name != eps[j].name
    ensures r.pools.host.used - HostsIn(ByName(eps)) == ps.host.used
    ensures r.pools.public.used - PublicsIn(ByName(eps)) == ps.public.used
  {
    IndexHoldsAll(eps);
    assert ps.host.used !! Hosts(r.pairs) && ps.public.used !! Publics(r.pairs);
  }

  lemma {:induction false} LostForRepeatedName(ps: Pools, r: PairsResult, eps: seq<Endpoint>, i: nat, j: nat)
    requires Grown(ps, r) && HostsOf(eps) == Hosts(r.pairs)
    requires FreshApart(ps, eps) && i < j < |eps| && eps[i].name == eps[j].name
    ensures r.pools.host.used - HostsIn(ByName(eps)) != ps.host.used
  {
    ShadowedPortStays(ps, eps, i, j);
    assert Fresh(ps, eps[i]) && eps[i].hostBind in HostsOf(eps);
    assert eps[i].hostBind in r.pools.host.used - HostsIn(ByName(eps));
  }

  function HostsOf(eps: seq<Endpoint>): set<int> {
    set i | 0 <= i < |eps| :: eps[i].hostBind
  }

  function PublicsOf(eps: seq<Endpoint>): set<int> {
    set i | 0 <= i < |eps| :: eps[i].publicPort
  }

  lemma PortsOfEndpoints(app: string, ls: seq<Listener>, pairs: seq<Pair>)
    requires |pairs| == |ls|
    ensures
      var eps := EndpointsOf(app, ls, pairs);
      && HostsOf(eps) == Hosts(pairs) && PublicsOf(eps) == Publics(pairs)
      && forall i :: 0 <= i < |ls| ==> eps[i].name == ls[i].name
  {
    var eps := EndpointsOf(app, ls, pairs);
    assert forall i :: 0 <= i < |ls| ==> eps[i].hostBind == pairs[i].host && eps[i].publicPort == pairs[i].public;
  }

  lemma IndexHoldsAll(eps: seq<Endpoint>)
    requires forall i, j :: 0 <= i < j < |eps| ==> eps[i].name != eps[j].name
    ensures HostsIn(ByName(eps)) == HostsOf(eps) && PublicsIn(ByName(eps)) == PublicsOf(eps)
  {
    var m := ByName(eps);
    IndexIsSound(eps, m);
    forall i | 0 <= i < |eps| ensures eps[i].name in m && m[eps[i].name] == eps[i] {
      ByNameComplete(eps, i);
    }
    IndexCovers(eps, m);
  }

  lemma IndexIsSound(eps: seq<Endpoint>, m: Entries)
    requires m == ByName(eps)
    ensures HostsIn(m) <= HostsOf(eps) && PublicsIn(m) <= PublicsOf(eps)
  {
    forall n | n in m ensures m[n].hostBind in HostsOf(eps) && m[n].publicPort in PublicsOf(eps) {
      var i := ByNameSound(eps, n);
    }
  }

  lemma IndexCovers(eps: seq<Endpoint>, m: Entries)
    requires forall i :: 0 <= i < |eps| ==> eps[i].name in m && m[eps[i].name] == eps[i]
    ensures HostsOf(eps) <= HostsIn(m) && PublicsOf(eps) <= PublicsIn(m)
  {
  }

  /** An endpoint shadowed by a later one of the same name is not in the index, so its port is not released. */
  lemma ShadowedPortStays(ps: Pools, eps: seq<Endpoint>, i: nat, j: nat)
    requires FreshApart(ps, eps) && i < j < |eps| && eps[i].name == eps[j].name
    ensures eps[i].hostBind !in HostsIn(ByName(eps))
  {
    var m := ByName(eps);
    forall n | n in m ensures m[n].hostBind != eps[i].hostBind {
      var k := ByNameSound(eps, n);
      assert k != i;
      assert if k < i then Apart(eps[k], eps[i]) else Apart(eps[i], eps[k]);
    }
  }
}
