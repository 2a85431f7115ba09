/** Two routers for remote connections: the resolver that accepts them and the TLS mux it may hand them to. */
module Routing {
  import opened Common
  import opened Registry

  const ACME_HTTP_FALLBACK_PORT := 5002

  // ---------------------------------------------------------------- host names

  function Lower(s: string): (r: string)
    ensures |r| == |s|
  {
    seq(|s|, i requires 0 <= i < |s| => LowerCase(s[i]))
  }

  function TrimDot(s: string): string {
    if s != "" && s[|s| - 1] == '.' then s[..|s| - 1] else s
  }

  function Normalize(s: string): string {
    TrimDot(Lower(s))
  }

  predicate HasSuffix(s: string, suffix: string) {
    |s| >= |suffix| && s[|s| - |suffix|..] == suffix
  }

  /** Everything before the first dot. */
  function FirstLabel(s: string): string {
    if s == "" || s[0] == '.' then "" else [s[0]] + FirstLabel(s[1..])
  }

  /** Everything after the first dot, if there is one. */
  function AfterFirstLabel(s: string): Option<string> {
    if s == "" then None else if s[0] == '.' then Some(s[1..]) else AfterFirstLabel(s[1..])
  }

  /** The listener a host names under a domain. */
  function ListenerUnder(h: string, domain: string): string {
    if HasSuffix(h, "." + domain) then FirstLabel(h[..|h| - |domain| - 1]) else ""
  }

  predicate DotFree(s: string) {
    forall i :: 0 <= i < |s| ==> s[i] != '.'
  }

  /** Case and one trailing dot do not matter. */
  lemma NormalizeForgets(s: string)
    ensures Normalize(Lower(s)) == Normalize(s) && Normalize(s + ".") == Lower(s)
    ensures forall i :: 0 <= i < |s| ==> Lower(s)[i] == if 'A' <= s[i] <= 'Z' then s[i] - 'A' + 'a' else s[i]
  {
    assert Lower(Lower(s)) == Lower(s);
    assert Lower(s + ".") == Lower(s) + ".";
  }

  lemma {:induction false} FirstLabelOf(name: string, rest: string)
    requires DotFree(name)
    ensures FirstLabel(name) == name && AfterFirstLabel(name).None?
    ensures FirstLabel(name + "." + rest) == name && AfterFirstLabel(name + "." + rest) == Some(rest)
  {
    var host := name + "." + rest;
    if name == "" {
      assert host == "." + rest && host[1..] == rest;
    } else {
      FirstLabelOf(name[1..], rest);
      assert host[0] == name[0] && host[1..] == name[1..] + "." + rest;
      assert [name[0]] + name[1..] == name;
    }
  }

  lemma UnderDomain(front: string, domain: string)
    ensures ListenerUnder(front + "." + domain, domain) == FirstLabel(front)
  {
    var host, suffix := front + "." + domain, "." + domain;
    assert host == front + suffix && |host| - |suffix| == |front|;
    assert host[|front|..] == suffix && host[..|front|] == front;
  }

  /** A host under the domain names the listener in its first label, whatever labels follow before the domain. */
  lemma HostNamesListener(name: string, between: string, domain: string)
    requires DotFree(name)
    ensures ListenerUnder(name + "." + domain, domain) == name
    ensures ListenerUnder((name + "." + between) + "." + domain, domain) == name
  {
    FirstLabelOf(name, between);
    UnderDomain(name, domain);
    UnderDomain(name + "." + between, domain);
  }

  /** Only a host that ends in the domain names a listener under it. */
  lemma NamedHostEndsInDomain(host: string, domain: string) returns (front: string)
    ensures ListenerUnder(host, domain) != "" ==> host == front + "." + domain && ListenerUnder(host, domain) == FirstLabel(front)
  {
    var suffix := "." + domain;
    front := if HasSuffix(host, suffix) then host[..|host| - |suffix|] else "";
    if HasSuffix(host, suffix) {
      assert host == front + suffix;
      assert front + suffix == front + "." + domain;
    }
  }

  // ---------------------------------------------------------------- listeners

  function NormalizePort(port: int): int {
    if port == ACME_HTTP_FALLBACK_PORT then 80 else port
  }

  predicate Matches(ep: Endpoint, port: int) {
    || NormalizePort(port) <= 0
    || (ep.remotePorts == [] && (NormalizePort(port) == 80 || NormalizePort(port) == 443))
    || NormalizePort(port) in ep.remotePorts || (port in ep.remotePorts)
  }

  /** Which ports an endpoint takes: any unset one, 80 and 443 if it names none, those it names, and the ACME fallback port
      5002 wherever it takes 80. */
  lemma MatchesExactly(ep: Endpoint, port: int)
    ensures Matches(ep, port) <==>
            || port <= 0
            || (ep.remotePorts == [] && (port == 80 || port == 443 || port == 5002))
            || port in ep.remotePorts
            || (port == 5002 && 80 in ep.remotePorts)
  {
  }

  method MatchesRemotePort(ep: Endpoint, port: int) returns (b: bool)
    ensures b == Matches(ep, port)
  {
    var p := NormalizePort(port);
    if p <= 0 {
      return true;
    }
    if ep.remotePorts == [] {
      return p == 80 || p == 443;
    }
    for i := 0 to |ep.remotePorts|
      invariant forall j :: 0 <= j < i ==> ep.remotePorts[j] != p && ep.remotePorts[j] != port
    {
      if ep.remotePorts[i] == p || ep.remotePorts[i] == port {
        return true;
      }
    }
    return false;
  }

  predicate Serves(registry: map<string, Entries>, app: string, listener: string, port: int) {
    app in registry && listener in registry[app] && Matches(registry[app][listener], port)
  }

  /** Some app's listener of that name that takes the port, in map order. */
  method ResolveListener(registry: map<string, Entries>, listener: string, port: int) returns (found: Option<Endpoint>)
    ensures found.Some? ==> exists app :: Serves(registry, app, listener, port) && found.value == registry[app][listener]
    ensures found.None? ==> forall app :: !Serves(registry, app, listener, port)
  {
    var rest := registry.Keys;
    while exists app :: app in rest
      invariant rest <= registry.Keys
      invariant forall app :: app in registry && app !in rest ==> !Serves(registry, app, listener, port)
      decreases rest
    {
      var app :| app in rest;
      if listener in registry[app] {
        var ok := MatchesRemotePort(registry[app][listener], port);
        if ok {
          assert Serves(registry, app, listener, port);
          return Some(registry[app][listener]);
        }
      }
      rest := rest - {app};
    }
    found := None;
  }

  /** Some endpoint, of any app and name, that takes the port. */
  method ResolveByRemotePort(registry: map<string, Entries>, port: int) returns (found: Option<Endpoint>)
    ensures found.Some? ==> exists app, n :: Serves(registry, app, n, port) && found.value == registry[app][n]
    ensures found.None? ==> forall app, n :: !Serves(registry, app, n, port)
  {
    var apps := registry.Keys;
    while exists app :: app in apps
      invariant apps <= registry.Keys
      invariant forall app, n :: app in registry && app !in apps ==> !Serves(registry, app, n, port)
      decreases apps
    {
      var app :| app in apps;
      var names := registry[app].Keys;
      while exists n :: n in names
        invariant names <= registry[app].Keys
        invariant forall n :: n in registry[app] && n !in names ==> !Serves(registry, app, n, port)
        decreases names
      {
        var n :| n in names;
        var ok := MatchesRemotePort(registry[app][n], port);
        if ok {
          assert Serves(registry, app, n, port);
          return Some(registry[app][n]);
        }
        names := names - {n};
      }
      apps := apps - {app};
    }
    found := None;
  }

  /** Listener names are not shared between apps. */
  ghost predicate UniqueListeners(registry: map<string, Entries>) {
    forall a, b, n :: Listed(registry, a, n) && Listed(registry, b, n) ==> a == b
  }

  /** With unique names there is at most one answer, whatever order the map is walked in. */
  lemma OneAnswer(registry: map<string, Entries>, listener: string, port: int, a: string, b: string)
    requires UniqueListeners(registry) && Serves(registry, a, listener, port) && Serves(registry, b, listener, port)
    ensures registry[a][listener] == registry[b][listener]
  {
    assert Listed(registry, a, listener) && Listed(registry, b, listener);
  }

  // ---------------------------------------------------------------- the routers

  /** The domain the resolver works with: the configured one, else what follows the portal's first label. */
  function ResolverDomain(portal: string, tld: string): string {
    if tld != "" || portal == "" then tld
    else match AfterFirstLabel(portal) case None => tld case Some(d) => d
  }

  class RemoteResolver {
    var portal: string
    var domain: string
    var port: int
    var tlsMuxPort: int

    constructor (port: int)
      ensures portal == "" && domain == "" && this.port == port && tlsMuxPort == 0
    {
      portal, domain, tlsMuxPort := "", "", 0;
      this.port := port;
    }

    method UpdateConfig(portalHostname: string, tld: string)
      modifies this`portal, this`domain
      ensures portal == Normalize(portalHostname) && domain == ResolverDomain(Normalize(portalHostname), Normalize(tld))
    {
      portal := Normalize(portalHostname);
      var d := Normalize(tld);
      if d == "" && portal != "" {
        var after := AfterFirstLabel(portal);
        if after.Some? {
          d := after.value;
        }
      }
      domain := d;
    }

    /** Where a connection for an endpoint goes: plain and end-to-end TLS straight to it, other TLS to the mux. */
    function Target(ep: Endpoint, normPort: int, isTLS: bool): int
      reads this
    {
      if ep.flow != FlowTLS && normPort != 80 && isTLS && tlsMuxPort > 0 then tlsMuxPort else ep.publicPort
    }

    /** TLS that the endpoint does not take itself goes to a running mux; everything else straight to the endpoint. */
    ghost predicate Delivers(ep: Endpoint, normPort: int, isTLS: bool, target: int)
      reads this
    {
      && (isTLS && normPort != 80 && ep.flow == FlowTCP && tlsMuxPort > 0 ==> target == tlsMuxPort)
      && (!isTLS || normPort == 80 || ep.flow == FlowTLS || tlsMuxPort <= 0 ==> target == ep.publicPort)
    }

    function ListenerOf(h: string): string
      reads this
    {
      if domain != "" then ListenerUnder(h, domain)
      else if AfterFirstLabel(h).Some? then FirstLabel(h)
      else ""
    }

    /** Portal first, then the named listener, then any endpoint that takes the port. */
    ghost predicate RoutesTo(registry: map<string, Entries>, h: string, p: int, isTLS: bool, target: Option<int>)
      reads this
    {
      var name := ListenerOf(h);
      if portal != "" && h == portal then target == Some(if p != 80 && isTLS && tlsMuxPort > 0 then tlsMuxPort else port)
      else if name != "" && exists app :: Serves(registry, app, name, p) then
        exists app :: Serves(registry, app, name, p) && target.Some? && Delivers(registry[app][name], p, isTLS, target.value)
      else if exists app, n :: Serves(registry, app, n, p) then
        exists app, n :: Serves(registry, app, n, p) && target.Some? && Delivers(registry[app][n], p, isTLS, target.value)
      else target == None
    }

    /** picked is the endpoint a host-name match selected. */
    method Resolve(registry: map<string, Entries>, hostname: string, remotePort: int, isTLS: bool)
      returns (target: Option<int>, ghost picked: Option<Endpoint>)
      ensures RoutesTo(registry, Normalize(hostname), NormalizePort(remotePort), isTLS, target)
      ensures
        var h, p := Normalize(hostname), NormalizePort(remotePort);
        picked.Some? ==>
          && !(portal != "" && h == portal) && ListenerOf(h) != "" && target.Some? && Delivers(picked.value, p, isTLS, target.value)
          && exists app :: Serves(registry, app, ListenerOf(h), p) && picked.value == registry[app][ListenerOf(h)]
      ensures
        var h, p := Normalize(hostname), NormalizePort(remotePort);
        picked.None? && !(portal != "" && h == portal) && ListenerOf(h) != "" ==>
          forall app :: !Serves(registry, app, ListenerOf(h), p)
    {
      picked := None;
      var h := Normalize(hostname);
      var p := NormalizePort(remotePort);
      if portal != "" && h == portal {
        if p != 80 && isTLS && tlsMuxPort > 0 {
          return Some(tlsMuxPort), None;
        }
        return Some(port), None;
      }
      var listener := ListenerOf(h);
      if listener != "" {
        var ep := ResolveListener(registry, listener, p);
        if ep.Some? {
          return Some(Target(ep.value, p, isTLS)), ep;
        }
      }
      var any := ResolveByRemotePort(registry, p);
      target := if any.Some? then Some(Target(any.value, p, isTLS)) else None;
    }
  }

  /** Which listener a host names for the resolver: its first label, under the domain if there is one. */
  lemma HostNamesForResolver(r: RemoteResolver, name: string, rest: string)
    requires DotFree(name)
    ensures r.domain == "" ==> r.ListenerOf(name + "." + rest) == name && r.ListenerOf(name) == ""
    ensures r.domain != "" ==> r.ListenerOf(name + "." + r.domain) == name
  {
    FirstLabelOf(name, rest);
    HostNamesListener(name, rest, r.domain);
  }

  class TlsMux {
    var portalHost: string
    var portalPort: int
    var domain: string

    constructor ()
      ensures portalHost == "" && domain == "" && portalPort == 0
    {
      portalHost, portalPort, domain := "", 0, "";
    }

    method UpdateConfig(host: string, tld: string, port: int)
      modifies this
      ensures portalHost == Normalize(host) && domain == Normalize(tld) && portalPort == port
    {
      portalHost := Normalize(host);
      domain := Normalize(tld);
      portalPort := port;
    }

    /** The local port for a server name, or 0 for one it does not know. */
    method ResolveUpstream(registry: map<string, Entries>, host: string) returns (upstream: int)
      ensures host == "" ==> upstream == 0
      ensures host != "" && host == portalHost ==> upstream == portalPort
      ensures host != "" && host != portalHost ==>
                var name := if domain != "" then ListenerUnder(host, domain) else "";
                && (name != "" && (exists app :: Serves(registry, app, name, 443)) ==>
                      exists app :: Serves(registry, app, name, 443) && upstream == registry[app][name].publicPort)
                && (name == "" || (forall app :: !Serves(registry, app, name, 443)) ==> upstream == 0)
    {
      if host == "" {
        return 0;
      }
      if host == portalHost {
        return portalPort;
      }
      if domain != "" {
        var name := ListenerUnder(host, domain);
        if name != "" {
          var ep := ResolveListener(registry, name, 443);
          if ep.Some? {
            return ep.value.publicPort;
          }
        }
      }
      return 0;
    }
  }

  /** Both routers under one configuration: a TLS connection on 443 for a host name the resolver matched reaches the
      public port of the endpoint it picked, directly or through the mux, exactly when a domain is configured;
      without one the mux refuses every such connection. */
  method RoutersAgree(r: RemoteResolver, mux: TlsMux, registry: map<string, Entries>, hostname: string,
                      portalHostname: string, tld: string)
    returns (target: Option<int>, upstream: int, ghost picked: Option<Endpoint>)
    requires UniqueListeners(registry)
    modifies r, mux
    ensures picked.Some? ==> target.Some? && target.value in {picked.value.publicPort, r.tlsMuxPort}
    ensures picked.Some? ==> upstream == if Normalize(tld) != "" then picked.value.publicPort else 0
  {
    r.UpdateConfig(portalHostname, tld);
    mux.UpdateConfig(portalHostname, tld, r.port);
    target, picked := r.Resolve(registry, hostname, 443, true);
    upstream := mux.ResolveUpstream(registry, Normalize(hostname));
    ghost var h := Normalize(hostname);
    if picked.Some? && Normalize(tld) != "" {
      ghost var name := r.ListenerOf(h);
      ghost var a :| Serves(registry, a, name, 443) && picked.value == registry[a][name];
      assert h != "";
      ghost var b :| Serves(registry, b, name, 443) && upstream == registry[b][name].publicPort;
      OneAnswer(registry, name, 443, a, b);
    }
  }

  lemma LabelThenDomain(c: char, d: char)
    requires 'a' <= c <= 'z' && 'a' <= d <= 'z'
    ensures Normalize([c, '.', d]) == [c, '.', d]
    ensures AfterFirstLabel([c, '.', d]) == Some([d]) && ListenerUnder([c, '.', d], [d]) == [c]
  {
    var h := [c, '.', d];
    assert Lower(h) == h;
    assert h[1..] == ['.', d] && h[1..][1..] == [d];
    assert "." + [d] == ['.', d] && h[..1] == [c];
    assert [c][1..] == "" && FirstLabel([c]) == [c];
  }

  /** One app with one listener, a portal and no domain: the resolver finds the listener by its host name and hands the
      connection to the mux, which does not know the name. */
  method MuxRefusesAMatchedHost(ep: Endpoint, muxPort: int) returns (target: Option<int>, upstream: int)
    requires Matches(ep, 443) && ep.flow != FlowTLS && muxPort > 0
    ensures target == Some(muxPort) && upstream == 0
  {
    var registry, portal, host := map["shop" := map["w" := ep]], "p.h", "w.h";
    LabelThenDomain('p', 'h');
    LabelThenDomain('w', 'h');
    assert Normalize("") == "";
    var r := new RemoteResolver(80);
    r.tlsMuxPort := muxPort;
    r.UpdateConfig(portal, "");
    assert r.domain == "h" && r.ListenerOf(host) == "w";
    var mux := new TlsMux();
    mux.UpdateConfig(portal, "", 80);
    assert Serves(registry, "shop", "w", 443);
    ghost var picked;
    target, picked := r.Resolve(registry, host, 443, true);
    assert picked == Some(ep);
    upstream := mux.ResolveUpstream(registry, host);
  }

  /** Without a configured domain the routers part ways: exactly when the portal's name has a domain to borrow. */
  lemma DomainsAgreeIff(portal: string, tld: string)
    ensures ResolverDomain(portal, tld) == tld
            <==> tld != "" || AfterFirstLabel(portal).None? || AfterFirstLabel(portal).value == ""
  {
  }
}
