/** Configurations, snapshots, and their listeners and certificates (compile.go). */
module Snapshots {
  import opened Wrappers
  import opened Hosts
  import opened Certificates
  import Policies

  // ----- Configuration -----

  /** Server limits with their defaults applied, in the order of their fields. */
  datatype ServerConfig = ServerConfig(limits: seq<int>)

  datatype ListenerConfig = ListenerConfig(
    name: string, address: string, tls: bool, trustedProxiesParse: bool, policies: seq<string>)

  /** `handler` says whether the handler and the extensions of the route compile. */
  datatype RouteConfig = RouteConfig(name: string, verb: string, path: string, policies: seq<string>, handler: bool)

  /**
   A site lists routes or sets one handler; `single` is whether that one compiles. `extensions` says whether the
   extensions of the site are registered.
   */
  datatype SiteConfig = SiteConfig(
    name: string, hosts: seq<string>, listeners: seq<string>, allowHTTP: bool,
    policies: seq<string>, extensions: bool, routes: seq<RouteConfig>, single: Option<bool>)

  datatype AcmeConfig = AcmeConfig(
    email: string, accountKey: string, accountURL: string, directory: string, caRoot: string)

  datatype Config = Config(
    version: int,
    disabled: bool,
    server: ServerConfig,
    minTLS: Option<int>,
    certificates: seq<string>,
    acme: Option<AcmeConfig>,
    policies: seq<Policies.Definition>,
    listeners: seq<ListenerConfig>,
    sites: seq<SiteConfig>)

  /**
   What compiling reads from outside the configuration; a certificate file that cannot be read is None. `mux` says
   whether http.ServeMux takes patterns beside each other.
   */
  datatype World = World(
    read: string -> Option<Loaded>,
    source: Source,
    now: int,
    isIP: string -> bool,
    port: string -> string,
    mux: seq<string> -> bool,
    newManager: Option<nat>)

  /** The certificate files that a configuration lists. */
  function Files(config: Config, world: World): (files: seq<Option<Loaded>>)
    ensures |files| == |config.certificates|
    ensures forall i | 0 <= i < |files| :: files[i] == world.read(config.certificates[i])
  {
    seq(|config.certificates|, i requires 0 <= i < |config.certificates| => world.read(config.certificates[i]))
  }

  /** Everything that a configuration lists can be loaded. */
  predicate Readable(config: Config, world: World) {
    Loadable(Files(config, world), world.source)
  }

  /** `certs` are the certificates that a configuration lists, as the world holds them. */
  ghost predicate Holding(config: Config, world: World, certs: Store) {
    Readable(config, world) && Loads(certs, Files(config, world), world.source, world.now)
  }

  // ----- Snapshots -----

  /** Everything that requires rebinding a listener when it changes. */
  datatype ListenerSpec = ListenerSpec(address: string, tls: bool, minTLS: int, server: ServerConfig)

  datatype Manager = Manager(id: nat, config: AcmeConfig)

  /** The site that answers, and whether it only redirects to HTTPS. */
  datatype SiteEntry = SiteEntry(site: nat, redirect: bool)

  datatype Snapshot = Snapshot(
    config: Config,
    listeners: map<string, ListenerSpec>,
    tables: map<string, Table<SiteEntry>>,
    certs: Store,
    policies: Policies.PolicyTable,
    acme: Option<Manager>,
    tlsHosts: set<string>,
    managedHosts: set<string>)

  datatype Error =
    | BadVersion | BadTLSVersion | BadCertificates(reason: LoadError) | BadPolicy(policy: Policies.PolicyError)
    | BadManager | BadListener | DuplicateSite | NoHosts | BadHost | BadExtensions
    | RoutesAndHandler | NoRoutes | BadPath | BadHandler | DuplicateRoute | BadPattern | UnknownPolicy
    | UnknownListener | NoCertificate | HostTaken | NoPlainListener

  // ----- Listeners -----

  predicate Ephemeral(address: string) {
    |address| >= 2 && address[|address| - 2..] == ":0"
  }

  predicate ListenersOk(listeners: seq<ListenerConfig>) {
    && (forall i | 0 <= i < |listeners| ::
          listeners[i].name != "" && listeners[i].address != "" && listeners[i].trustedProxiesParse)
    && (forall i, j | 0 <= i < j < |listeners| ::
          listeners[i].name != listeners[j].name
          && (listeners[i].address == listeners[j].address ==> Ephemeral(listeners[i].address)))
  }

  function Spec(l: ListenerConfig, minTLS: int, server: ServerConfig): ListenerSpec {
    ListenerSpec(l.address, l.tls, if l.tls then minTLS else 0, server)
  }

  predicate HasName(listeners: seq<ListenerConfig>, name: string) {
    exists i :: 0 <= i < |listeners| && listeners[i].name == name
  }

  predicate HasAddress(listeners: seq<ListenerConfig>, address: string) {
    exists i :: 0 <= i < |listeners| && listeners[i].address == address
  }

  /** One entry per configured listener. */
  function SpecMap(listeners: seq<ListenerConfig>, minTLS: int, server: ServerConfig): map<string, ListenerSpec> {
    if listeners == [] then map[]
    else
      var last := listeners[|listeners| - 1];
      SpecMap(listeners[..|listeners| - 1], minTLS, server)[last.name := Spec(last, minTLS, server)]
  }

  lemma NamesDiffer(listeners: seq<ListenerConfig>)
    requires ListenersOk(listeners) && listeners != []
    ensures forall i | 0 <= i < |listeners| - 1 :: listeners[i].name != listeners[|listeners| - 1].name
  {
  }

  lemma {:induction false} SpecMapHolds(listeners: seq<ListenerConfig>, minTLS: int, server: ServerConfig)
    requires ListenersOk(listeners)
    ensures var specs := SpecMap(listeners, minTLS, server);
            && (forall i | 0 <= i < |listeners| ::
                  listeners[i].name in specs && specs[listeners[i].name] == Spec(listeners[i], minTLS, server))
            && (forall name :: name in specs <==> HasName(listeners, name))
  {
    if listeners != [] {
      hide HasName, HasAddress, Spec;
      var n := |listeners| - 1;
      var rest := listeners[..n];
      assert listeners == rest + [listeners[n]];
      AppendListener(rest, listeners[n]);
      hide ListenersOk, Acceptable;
      SpecMapHolds(rest, minTLS, server);
      assert SpecMap(listeners, minTLS, server)
          == SpecMap(rest, minTLS, server)[listeners[n].name := Spec(listeners[n], minTLS, server)];
      NamesDiffer(listeners);
    }
  }

  /** Fixed addresses are bound at most once (what compile.go:190-192 is for). */
  ghost predicate DistinctAddresses(specs: map<string, ListenerSpec>) {
    forall a, b | a in specs && b in specs && a != b ::
      specs[a].address == specs[b].address ==> Ephemeral(specs[a].address)
  }

  predicate Acceptable(listeners: seq<ListenerConfig>, l: ListenerConfig) {
    && l.name != "" && l.address != "" && l.trustedProxiesParse
    && !HasName(listeners, l.name)
    && (HasAddress(listeners, l.address) ==> Ephemeral(l.address))
  }

  lemma AppendListener(listeners: seq<ListenerConfig>, l: ListenerConfig)
    ensures ListenersOk(listeners + [l]) <==> ListenersOk(listeners) && Acceptable(listeners, l)
    ensures forall name :: HasName(listeners + [l], name) <==> HasName(listeners, name) || name == l.name
    ensures forall address ::
              HasAddress(listeners + [l], address) <==> HasAddress(listeners, address) || address == l.address
  {
    var more := listeners + [l];
    assert more[|listeners|] == l && forall i | 0 <= i < |listeners| :: more[i] == listeners[i];
  }

  lemma {:induction false} PrefixOk(listeners: seq<ListenerConfig>, k: nat)
    requires k <= |listeners| && ListenersOk(listeners)
    ensures ListenersOk(listeners[..k])
  {
    assert forall i | 0 <= i < k :: listeners[..k][i] == listeners[i];
  }

  lemma SpecMapNext(listeners: seq<ListenerConfig>, k: nat, minTLS: int, server: ServerConfig)
    requires k < |listeners|
    ensures SpecMap(listeners[..k + 1], minTLS, server)
            == SpecMap(listeners[..k], minTLS, server)[listeners[k].name := Spec(listeners[k], minTLS, server)]
  {
    assert listeners[..k + 1][..k] == listeners[..k];
  }

  /** What the loop below needs to know about one more listener. */
  lemma NextListener(listeners: seq<ListenerConfig>, k: nat, minTLS: int, server: ServerConfig)
    requires k < |listeners| && ListenersOk(listeners[..k])
    ensures ListenersOk(listeners[..k + 1]) <==> Acceptable(listeners[..k], listeners[k])
    ensures ListenersOk(listeners) ==> ListenersOk(listeners[..k + 1])
    ensures forall name :: name in SpecMap(listeners[..k], minTLS, server) <==> HasName(listeners[..k], name)
    ensures forall address :: HasAddress(listeners[..k + 1], address) <==>
              HasAddress(listeners[..k], address) || address == listeners[k].address
    ensures SpecMap(listeners[..k + 1], minTLS, server)
            == SpecMap(listeners[..k], minTLS, server)[listeners[k].name := Spec(listeners[k], minTLS, server)]
  {
    hide ListenersOk, HasName, HasAddress, SpecMap, Acceptable;
    assert listeners[..k] + [listeners[k]] == listeners[..k + 1];
    AppendListener(listeners[..k], listeners[k]);
    SpecMapHolds(listeners[..k], minTLS, server);
    SpecMapNext(listeners, k, minTLS, server);
    if ListenersOk(listeners) {
      PrefixOk(listeners, k + 1);
    }
  }

  method CompileListeners(listeners: seq<ListenerConfig>, minTLS: int, server: ServerConfig)
    returns (r: Option<map<string, ListenerSpec>>)
    ensures r.Some? <==> ListenersOk(listeners)
    ensures r.Some? ==> r.value == SpecMap(listeners, minTLS, server) && DistinctAddresses(r.value)
  {
    var specs: map<string, ListenerSpec> := map[];
    var addresses: map<string, string> := map[];
    for k := 0 to |listeners|
      invariant ListenersOk(listeners[..k]) && specs == SpecMap(listeners[..k], minTLS, server)
      invariant forall a :: a in addresses <==> HasAddress(listeners[..k], a)
    {
      hide ListenersOk, HasName, HasAddress, SpecMap;
      var l := listeners[k];
      NextListener(listeners, k, minTLS, server);
      if l.name == "" || l.name in specs || l.address == "" {
        return None;
      }
      if l.address in addresses && !Ephemeral(l.address) {
        return None;
      }
      if !l.trustedProxiesParse {
        return None;
      }
      specs := specs[l.name := Spec(l, minTLS, server)];
      addresses := addresses[l.address := l.name];
    }
    assert listeners[..|listeners|] == listeners;
    SpecsDistinct(listeners, minTLS, server);
    return Some(specs);
  }

  lemma SpecsDistinct(listeners: seq<ListenerConfig>, minTLS: int, server: ServerConfig)
    requires ListenersOk(listeners)
    ensures DistinctAddresses(SpecMap(listeners, minTLS, server))
  {
    var specs := SpecMap(listeners, minTLS, server);
    SpecMapHolds(listeners, minTLS, server);
    forall a, b | a in specs && b in specs && a != b && specs[a].address == specs[b].address
      ensures Ephemeral(specs[a].address)
    {
      assert HasName(listeners, a) && HasName(listeners, b);
      var i :| 0 <= i < |listeners| && listeners[i].name == a;
      var j :| 0 <= j < |listeners| && listeners[j].name == b;
    }
  }

  function DefaultListeners(withTLS: bool): seq<ListenerConfig> {
    [ListenerConfig("http", ":80", false, true, [])]
    + (if withTLS then [ListenerConfig("https", ":443", true, true, [])] else [])
  }

  predicate EmptyTable<T>(t: Table<T>) {
    t.exact == map[] && t.wildcard == map[] && t.fallback.None?
  }

  function Listeners(config: Config, certs: Store, acme: Option<Manager>): seq<ListenerConfig> {
    if config.listeners != [] then config.listeners
    else DefaultListeners(!(EmptyTable(certs.current) && EmptyTable(certs.stale)) || acme.Some?)
  }

  /** The kernel picks the port exactly where an address ends in port 0. */
  lemma EphemeralIff(host: string, address: string)
    ensures Ephemeral(host + ":0")
    ensures Ephemeral(address) ==> address == address[..|address| - 2] + ":0"
  {
  }

  /** Some name has an entry. */
  ghost predicate Inhabited(t: Table<Certificate>) {
    exists name :: Get(t, name).Some?
  }

  lemma EmptyIff(t: Table<Certificate>)
    requires WellFormed(t)
    ensures EmptyTable(t) <==> !Inhabited(t)
  {
    if k :| k in t.exact {
      assert Get(t, k).Some?;
    }
    if k :| k in t.wildcard {
      assert ("*." + k)[2..] == k && IsWildcard("*." + k);
      assert Get(t, "*." + k).Some?;
    }
    if t.fallback.Some? {
      assert Get(t, "*").Some?;
    }
  }

  /** Listeners are the configured ones, or port 80, and port 443 with TLS if there is any certificate or ACME is on. */
  lemma ListenersMeans(config: Config, certs: Store, acme: Option<Manager>)
    requires WellFormed(certs.current) && WellFormed(certs.stale)
    ensures
      var listeners := Listeners(config, certs, acme);
      var http := ListenerConfig("http", ":80", false, true, []);
      && (ListenersOk(config.listeners) ==> ListenersOk(listeners))
      && listeners ==
           if config.listeners != [] then config.listeners
           else if acme.Some? || Inhabited(certs.current) || Inhabited(certs.stale)
           then [http, ListenerConfig("https", ":443", true, true, [])]
           else [http]
  {
    EmptyIff(certs.current);
    EmptyIff(certs.stale);
  }

  /**
   A listener has the same spec in two configurations exactly if its address, TLS, the server limits and, with TLS, the
   minimum version are the same.
   */
  lemma SameSpecIff(a: seq<ListenerConfig>, i: nat, minTLS: int, server: ServerConfig,
                    b: seq<ListenerConfig>, j: nat, minTLS': int, server': ServerConfig)
    requires ListenersOk(a) && ListenersOk(b) && i < |a| && j < |b|
    ensures a[i].name in SpecMap(a, minTLS, server) && b[j].name in SpecMap(b, minTLS', server')
    ensures SpecMap(a, minTLS, server)[a[i].name] == SpecMap(b, minTLS', server')[b[j].name] <==>
            && a[i].address == b[j].address && a[i].tls == b[j].tls && server == server'
            && (a[i].tls ==> minTLS == minTLS')
    ensures SpecMap(a, minTLS, server)[a[i].name].address == a[i].address
    ensures SpecMap(a, minTLS, server)[a[i].name].tls == a[i].tls
  {
    hide ListenersOk, SpecMap;
    SpecMapHolds(a, minTLS, server);
    SpecMapHolds(b, minTLS', server');
  }

  // ----- Certificates for TLS hosts -----

  predicate AcmeEligible(host: string, isIP: string -> bool) {
    host != "*" && !IsWildcard(host) && !isIP(host)
  }

  predicate Servable(host: string, certs: Store, withAcme: bool, isIP: string -> bool) {
    Covers(certs.current, host) || (withAcme && AcmeEligible(host, isIP)) || Covers(certs.stale, host)
  }

  /** Main spec of ACME's share: eligible TLS hosts that no current certificate covers. */
  function Managed(tlsHosts: set<string>, certs: Store, withAcme: bool, isIP: string -> bool): set<string> {
    set h | h in tlsHosts && withAcme && AcmeEligible(h, isIP) && !Covers(certs.current, h)
  }

  method ManagedHosts(tlsHosts: set<string>, certs: Store, acme: Option<Manager>, isIP: string -> bool)
    returns (managed: set<string>)
    ensures managed == Managed(tlsHosts, certs, acme.Some?, isIP)
  {
    managed := {};
    if acme.None? {
      return;
    }
    var rest := tlsHosts;
    while rest != {}
      invariant rest <= tlsHosts && managed == Managed(tlsHosts - rest, certs, true, isIP)
      decreases |rest|
    {
      var host :| host in rest;
      if AcmeEligible(host, isIP) && !Covers(certs.current, host) {
        managed := managed + {host};
      }
      rest := rest - {host};
    }
  }

  /** SNI selection (server.go:571-586): current, then issued by ACME, then stale. */
  function Select(certs: Store, withAcme: bool, issued: map<string, Certificate>, host: string): Option<Certificate> {
    if Match(certs.current, host).Some? then Match(certs.current, host)
    else if withAcme && host in issued then Some(issued[host])
    else Match(certs.stale, host)
  }

  /**
   Main result: for a pattern that compile accepts on a TLS listener, every name it stands for
   is served, except while ACME still has to issue its certificate and no stale one is listed.
   */
  lemma CoverageMeansServable(certs: Store, withAcme: bool, isIP: string -> bool, tlsHosts: set<string>,
                              issued: map<string, Certificate>, pattern: string, host: string)
    requires WellFormed(certs.current) && WellFormed(certs.stale)
    requires pattern in tlsHosts && pattern != "*" && Servable(pattern, certs, withAcme, isIP) && Names(pattern, host)
    ensures Select(certs, withAcme, issued, host).None? <==>
            host in Managed(tlsHosts, certs, withAcme, isIP) && host !in issued && Match(certs.stale, host).None?
  {
    NamesMatch(certs.current, pattern, host);
    NamesMatch(certs.stale, pattern, host);
    assert IsWildcard(pattern) ==> !AcmeEligible(pattern, isIP);
  }

  /**
   Which certificate answers: the best current one that is listed, else the one that ACME issued, and a stale one only
   if there is neither.
   */
  lemma SelectMeans(certs: Store, all: seq<Certificate>, now: int, withAcme: bool, issued: map<string, Certificate>,
                    host: string)
    requires Holds(certs.current, all, now, true) && Holds(certs.stale, all, now, false)
    ensures
      var r := Select(certs, withAcme, issued, host);
      if Offered(all, host, now, true) then r.Some? && Best(all, host, now, true, r.value)
      else if withAcme && host in issued then r == Some(issued[host])
      else if Offered(all, host, now, false) then r.Some? && Best(all, host, now, false, r.value)
      else r == None
  {
    hide Holds, Match, Offered, Best;
    MatchIsBest(certs.current, all, host, now, true);
    MatchIsBest(certs.stale, all, host, now, false);
  }
}
