/** What an accepted configuration means for its listeners, hosts and certificates, in terms of its own fields. */
module Accepted {
  import opened Wrappers
  import opened Hosts
  import opened Certificates
  import opened Snapshots
  import opened Sites
  import opened Compile
  import Policies
  import Routes

  /** The site is meant for the listener: it lists it, or lists none. */
  predicate MeantFor(site: SiteConfig, l: string) {
    site.listeners == [] || l in site.listeners
  }

  predicate HasHost(site: SiteConfig, p: string) {
    exists k :: 0 <= k < |site.hosts| && NormalizeHost(site.hosts[k]) == p
  }

  /** `snap` is the accepted configuration, compiled. */
  ghost predicate Compiled(config: Config, world: World, prev: Option<Snapshot>, certs: Store, snap: Snapshot) {
    && Accepts(config, world, prev, certs)
    && snap.config == config && snap.certs == certs && snap.acme == ManagerFor(config.acme, world, prev).value
    && IsSnapshot(snap, ContextFor(config, certs, snap.acme, world))
  }

  // ----- Who answers where -----

  lemma NamesIff(config: Config, world: World, prev: Option<Snapshot>, certs: Store, snap: Snapshot, l: string)
    requires Compiled(config, world, prev, certs, snap)
    ensures
      var listeners, c := Listeners(config, certs, snap.acme), ContextFor(config, certs, snap.acme, world);
      && (l in snap.listeners <==> HasName(listeners, l)) && (l in c.names <==> HasName(listeners, l))
      && snap.tables.Keys == snap.listeners.Keys == c.specs.Keys
  {
    hide SitesOk, SpecMap, ManagerFor, Listeners, ListenersOk, PoliciesKnown, AsConfigured, ServedOverTLS;
    var listeners := Listeners(config, certs, snap.acme);
    SpecMapHolds(listeners, config.minTLS.value, config.server);
    var names := ContextFor(config, certs, snap.acme, world).names;
    assert |names| == |listeners| && forall i | 0 <= i < |names| :: names[i] == listeners[i].name;
    if HasName(listeners, l) {
      var i :| 0 <= i < |listeners| && listeners[i].name == l;
      assert names[i] == l;
    }
  }

  lemma ClaimsIff(site: SiteConfig, c: Context, l: string, p: string)
    requires l in c.names
    ensures Claims(site, c, l, p) <==> MeantFor(site, l) && HasHost(site, p)
  {
    hide NormalizeHost;
    if p in Patterns(site) {
      var k :| 0 <= k < |Patterns(site)| && Patterns(site)[k] == p;
      assert NormalizeHost(site.hosts[k]) == p;
    }
    if HasHost(site, p) {
      var k :| 0 <= k < |site.hosts| && NormalizeHost(site.hosts[k]) == p;
      assert Patterns(site)[k] == p;
    }
  }

  /** Some TLS listener that the site is meant for has a port. */
  ghost predicate HasHttps(site: SiteConfig, snap: Snapshot, port: string -> string) {
    exists n ::
      n in snap.listeners && MeantFor(site, n) && snap.listeners[n].tls && port(snap.listeners[n].address) != ""
  }

  lemma {:induction false} HttpsPortIff(served: seq<string>, c: Context)
    ensures HttpsPort(served, c) != "" <==>
            exists n :: n in served && n in c.specs && c.specs[n].tls && c.port(c.specs[n].address) != ""
  {
    if served != [] {
      HttpsPortIff(served[1..], c);
      assert served == [served[0]] + served[1..];
    }
  }

  lemma RedirectsIff(site: SiteConfig, l: string, c: Context, snap: Snapshot)
    requires snap.listeners == c.specs && l in c.specs && forall n :: n in c.names <==> n in c.specs
    ensures Redirects(site, l, c) <==>
            !snap.listeners[l].tls && !site.allowHTTP && HasHttps(site, snap, c.port)
  {
    hide HttpsPort;
    HttpsPortIff(Served(site, c), c);
  }

  /**
   The table of a listener holds a pattern exactly for the site that lists it as a host and is meant for the listener.
   The entry redirects exactly on a plain listener, unless the site allows it, if the site has an HTTPS port.
   */
  lemma TablesMean(config: Config, world: World, prev: Option<Snapshot>, certs: Store, snap: Snapshot, l: string,
                   p: string)
    requires Compiled(config, world, prev, certs, snap) && l in snap.listeners
    ensures l in snap.tables
    ensures
      match Get(snap.tables[l], p)
      case None => forall i | 0 <= i < |config.sites| :: !(MeantFor(config.sites[i], l) && HasHost(config.sites[i], p))
      case Some(e) =>
        && (forall i | 0 <= i < |config.sites| ::
              MeantFor(config.sites[i], l) && HasHost(config.sites[i], p) <==> i == e.site)
        && e.site < |config.sites|
        && (e.redirect <==> !snap.listeners[l].tls && !config.sites[e.site].allowHTTP
                            && HasHttps(config.sites[e.site], snap, world.port))
  {
    hide SitesOk, ManagerFor, PoliciesKnown, AsConfigured, ServedOverTLS, Claims, HasHost, MeantFor, Redirects;
    hide Listeners, ListenersOk, HasHttps, SpecMap, Get;
    var c := ContextFor(config, certs, snap.acme, world);
    forall n
      ensures (n in snap.listeners <==> n in c.names) && (n in snap.tables <==> n in snap.listeners)
    {
      NamesIff(config, world, prev, certs, snap, n);
    }
    forall i | 0 <= i < |config.sites|
      ensures Claims(config.sites[i], c, l, p) <==> MeantFor(config.sites[i], l) && HasHost(config.sites[i], p)
    {
      ClaimsIff(config.sites[i], c, l, p);
    }
    assert Owner(Get(snap.tables[l], p), config.sites, c, l, p);
    if Get(snap.tables[l], p).Some? {
      RedirectsIff(config.sites[Get(snap.tables[l], p).value.site], l, c, snap);
    }
  }

  /** A site only lists listeners that there are. */
  lemma ListedIsThere(config: Config, world: World, prev: Option<Snapshot>, certs: Store, snap: Snapshot, i: nat,
                      l: string)
    requires Compiled(config, world, prev, certs, snap) && i < |config.sites| && l in config.sites[i].listeners
    ensures HasName(Listeners(config, certs, snap.acme), l) && l in snap.listeners
  {
    hide ManagerFor, PoliciesKnown, AsConfigured, ServedOverTLS, Claims, Listeners, ListenersOk, SpecMap;
    hide Routes.RoutesOk;
    NamesIff(config, world, prev, certs, snap, l);
    assert SiteOk(config.sites[i], ContextFor(config, certs, snap.acme, world));
  }

  // ----- What is accepted -----

  /** No two accepted sites share an ID, or a host on a listener. */
  lemma SitesAreApart(config: Config, world: World, prev: Option<Snapshot>, certs: Store, snap: Snapshot, i: nat,
                      j: nat, l: string, p: string)
    requires Compiled(config, world, prev, certs, snap) && i < j < |config.sites| && l in snap.listeners
    ensures config.sites[i].hosts != [] && config.sites[j].hosts != []
    ensures
      var a, b := config.sites[i], config.sites[j];
      && (a.name != "" ==> a.name != b.name)
      && (a.name == "" && b.name != "" ==> NormalizeHost(a.hosts[0]) != b.name)
      && (a.name != "" && b.name == "" ==> a.name != NormalizeHost(b.hosts[0]))
      && (a.name == "" && b.name == "" ==> NormalizeHost(a.hosts[0]) != NormalizeHost(b.hosts[0]))
    ensures !(MeantFor(config.sites[i], l) && HasHost(config.sites[i], p)
              && MeantFor(config.sites[j], l) && HasHost(config.sites[j], p))
  {
    TablesMean(config, world, prev, certs, snap, l, p);
    SiteIsFine(config, world, prev, certs, i);
    SiteIsFine(config, world, prev, certs, j);
    hide SiteOk, ListenersOk, ManagerFor, IsSnapshot, NormalizeHost;
    assert SiteID(config.sites[i]) != SiteID(config.sites[j]);
  }

  /** An accepted site has valid hosts, each once, and either a handler or routes with paths and different names. */
  lemma SiteIsFine(config: Config, world: World, prev: Option<Snapshot>, certs: Store, i: nat)
    requires Accepts(config, world, prev, certs) && i < |config.sites|
    ensures config.version == 0 || config.version == 1
    ensures
      var hosts := config.sites[i].hosts;
      && hosts != [] && (forall k | 0 <= k < |hosts| :: ValidPattern(NormalizeHost(hosts[k]), world.isIP))
      && forall k, m | 0 <= k < m < |hosts| :: NormalizeHost(hosts[k]) != NormalizeHost(hosts[m])
    ensures
      var site := config.sites[i];
      && (site.single.Some? <==> site.routes == []) && site.extensions && (site.single.Some? ==> site.single.value)
      && (forall k | 0 <= k < |site.routes| ::
            site.routes[k].handler && (site.routes[k].path == "" || site.routes[k].path[0] == '/'))
      && forall k, m | 0 <= k < m < |site.routes| ::
           Routes.RouteName(site.routes[k]) != Routes.RouteName(site.routes[m])
  {
    hide ManagerFor, PoliciesKnown, ServedOverTLS, Claims, ListenersOk, SpecMap, NormalizeHost, ValidPattern;
    hide Routes.RouteName, Routes.Pattern;
    var c := ContextFor(config, certs, ManagerFor(config.acme, world, prev).value, world);
    var site := config.sites[i];
    assert SiteOk(site, c);
    forall k | 0 <= k < |site.hosts|
      ensures ValidPattern(NormalizeHost(site.hosts[k]), world.isIP)
    {
      assert Patterns(site)[k] in Patterns(site);
    }
    var routes := Routes.RoutesOf(site);
    forall k | 0 <= k < |routes|
      ensures routes[k].handler && (routes[k].path == "" || routes[k].path[0] == '/')
    {
      assert Routes.Fits(routes, Routes.PatternsOf(routes), k, c.policies, c.mux);
    }
    if site.single.Some? {
      assert routes[0].handler;
    }
  }

  // ----- Certificates -----

  /** Every certificate of the files that the configuration lists, and of the source. */
  function Listed(config: Config, world: World): seq<Certificate>
    requires Readable(config, world)
  {
    Leaves(Gathered(Files(config, world), world.source))
  }

  lemma ListedIff(config: Config, world: World, c: Certificate)
    requires Readable(config, world)
    ensures c in Listed(config, world) <==>
            || (exists i :: 0 <= i < |config.certificates| && world.read(config.certificates[i]) == Some(Parsed(c)))
            || (world.source.Extra? && Parsed(c) in world.source.loaded)
  {
    var files := Files(config, world);
    GatheredIff(files, world.source);
    hide Gathered, Usable;
    if Some(Parsed(c)) in files {
      var i :| 0 <= i < |files| && files[i] == Some(Parsed(c));
      assert world.read(config.certificates[i]) == Some(Parsed(c));
    }
    if i :| 0 <= i < |config.certificates| && world.read(config.certificates[i]) == Some(Parsed(c)) {
      assert files[i] == Some(Parsed(c));
    }
  }

  lemma TablesHold(config: Config, world: World, certs: Store)
    requires Holding(config, world, certs)
    ensures Holds(certs.current, Listed(config, world), world.now, true)
    ensures Holds(certs.stale, Listed(config, world), world.now, false)
  {
  }

  /**
   The certificate that answers for a host: of the files that the configuration lists and the source, the best current
   one, else the one that ACME issued, and a stale one only if there is neither.
   */
  lemma AcceptedSelects(config: Config, world: World, prev: Option<Snapshot>, certs: Store, snap: Snapshot,
                        issued: map<string, Certificate>, host: string)
    requires Compiled(config, world, prev, certs, snap) && Holding(config, world, certs)
    ensures
      var r := Select(snap.certs, snap.acme.Some?, issued, host);
      var all := Listed(config, world);
      if Offered(all, host, world.now, true) then r.Some? && Best(all, host, world.now, true, r.value)
      else if config.acme.Some? && host in issued then r == Some(issued[host])
      else if Offered(all, host, world.now, false) then r.Some? && Best(all, host, world.now, false, r.value)
      else r == None
  {
    TablesHold(config, world, certs);
    hide Holds, Holding, Listed, Select, Offered, Best, SitesOk, Dispatches, ListenersOk;
    SelectMeans(certs, Listed(config, world), world.now, snap.acme.Some?, issued, host);
  }

  // ----- Listeners and ACME -----

  /** Accepted listeners have names and addresses, and name no policy that is not configured. */
  lemma ListenersAreFine(config: Config, world: World, prev: Option<Snapshot>, certs: Store, snap: Snapshot, k: nat,
                         name: string)
    requires Compiled(config, world, prev, certs, snap) && k < |Listeners(config, certs, snap.acme)|
    ensures
      var l := Listeners(config, certs, snap.acme)[k];
      && l.name != "" && l.address != "" && l.trustedProxiesParse
      && (name in l.policies ==> exists i :: 0 <= i < |config.policies| && config.policies[i].name == name)
  {
    hide SitesOk, SpecMap, ManagerFor, Listeners, IsSnapshot;
    var l := Listeners(config, certs, snap.acme)[k];
    assert Routes.Declared(l.policies, PolicyNames(config));
  }

  /** Some site lists the host, and is meant for a listener with TLS. */
  ghost predicate OverTLS(config: Config, snap: Snapshot, h: string) {
    exists i, l ::
      && 0 <= i < |config.sites| && l in snap.listeners && snap.listeners[l].tls
      && MeantFor(config.sites[i], l) && HasHost(config.sites[i], h)
  }

  lemma OverTLSIff(config: Config, world: World, prev: Option<Snapshot>, certs: Store, snap: Snapshot, h: string)
    requires Compiled(config, world, prev, certs, snap)
    ensures h in snap.tlsHosts <==> OverTLS(config, snap, h)
  {
    hide SitesOk, ManagerFor, AsConfigured, Claims, HasHost, MeantFor, Listeners, SpecMap, Dispatches, ListenersOk;
    hide PoliciesKnown, Readable, Managed;
    var c := ContextFor(config, certs, snap.acme, world);
    forall i, l | 0 <= i < |config.sites| && l in snap.listeners
      ensures Claims(config.sites[i], c, l, h) <==> MeantFor(config.sites[i], l) && HasHost(config.sites[i], h)
    {
      NamesIff(config, world, prev, certs, snap, l);
      ClaimsIff(config.sites[i], c, l, h);
    }
  }

  lemma ManagedAre(config: Config, world: World, prev: Option<Snapshot>, certs: Store, snap: Snapshot)
    requires Compiled(config, world, prev, certs, snap)
    ensures snap.managedHosts == Managed(snap.tlsHosts, certs, config.acme.Some?, world.isIP)
  {
    hide SitesOk, Listeners, SpecMap, Dispatches, ListenersOk, ServedOverTLS, Managed, PoliciesKnown, Readable;
  }

  lemma TLSIsServable(config: Config, world: World, prev: Option<Snapshot>, certs: Store, snap: Snapshot, h: string)
    requires Compiled(config, world, prev, certs, snap) && h in snap.tlsHosts
    ensures Servable(h, certs, config.acme.Some?, world.isIP)
  {
    hide Listeners, SpecMap, Dispatches, ListenersOk, Managed, PoliciesKnown, Readable, Servable, Claims, SiteOk;
    var c := ContextFor(config, certs, snap.acme, world);
    assert ServedOverTLS(config.sites, c, h);
    var i, l :| 0 <= i < |config.sites| && l in c.specs && c.specs[l].tls && Claims(config.sites[i], c, l, h);
    ClaimedIsServable(config.sites[i], c, l, h);
  }

  /** ACME can issue for a name that is neither a wildcard nor an IP address. */
  predicate Issuable(h: string, isIP: string -> bool) {
    h != "*" && !(|h| >= 2 && h[0] == '*' && h[1] == '.') && !isIP(h)
  }

  /** ACME manages exactly what it can issue for, if it is on, of the hosts served over TLS without a current one. */
  lemma ManagedIff(config: Config, world: World, prev: Option<Snapshot>, certs: Store, snap: Snapshot, h: string)
    requires Compiled(config, world, prev, certs, snap) && Holding(config, world, certs)
    ensures
      h in snap.managedHosts <==>
      && config.acme.Some? && OverTLS(config, snap, h) && Issuable(h, world.isIP)
      && !Offered(Listed(config, world), h, world.now, true)
  {
    hide Compiled, Holding, Holds, Offered, OverTLS, Managed, Issuable;
    OverTLSIff(config, world, prev, certs, snap, h);
    ManagedAre(config, world, prev, certs, snap);
    HoldingIsReadable(config, world, certs);
    TablesHold(config, world, certs);
    ManagedMeans(snap.tlsHosts, certs, Listed(config, world), config.acme.Some?, world, h);
  }

  lemma HoldingIsReadable(config: Config, world: World, certs: Store)
    requires Holding(config, world, certs)
    ensures Readable(config, world)
  {
  }

  lemma ManagedMeans(tlsHosts: set<string>, certs: Store, all: seq<Certificate>, withAcme: bool, world: World,
                     h: string)
    requires Holds(certs.current, all, world.now, true)
    ensures h in Managed(tlsHosts, certs, withAcme, world.isIP) <==>
            withAcme && h in tlsHosts && Issuable(h, world.isIP) && !Offered(all, h, world.now, true)
  {
    hide Holds, Offered, Match;
    MatchIsBest(certs.current, all, h, world.now, true);
  }

  lemma ServableMeans(certs: Store, all: seq<Certificate>, withAcme: bool, world: World, h: string)
    requires Holds(certs.current, all, world.now, true) && Holds(certs.stale, all, world.now, false) && h != "*"
    ensures Servable(h, certs, withAcme, world.isIP) <==>
            || Offered(all, h, world.now, true) || Offered(all, h, world.now, false)
            || (withAcme && Issuable(h, world.isIP))
  {
    hide Holds, Offered, Match;
    MatchIsBest(certs.current, all, h, world.now, true);
    MatchIsBest(certs.stale, all, h, world.now, false);
  }

  /** Every host served over TLS, but `*`, has a listed certificate, if only a stale one, or ACME can issue it. */
  lemma TLSIsCovered(config: Config, world: World, prev: Option<Snapshot>, certs: Store, snap: Snapshot, h: string)
    requires Compiled(config, world, prev, certs, snap) && Holding(config, world, certs)
    requires OverTLS(config, snap, h) && h != "*"
    ensures
      var all := Listed(config, world);
      || Offered(all, h, world.now, true) || Offered(all, h, world.now, false)
      || (config.acme.Some? && Issuable(h, world.isIP))
  {
    hide Compiled, Holding, Holds, Offered, OverTLS, Servable, Issuable;
    OverTLSIff(config, world, prev, certs, snap, h);
    TLSIsServable(config, world, prev, certs, snap, h);
    HoldingIsReadable(config, world, certs);
    TablesHold(config, world, certs);
    ServableMeans(certs, Listed(config, world), config.acme.Some?, world, h);
  }

  lemma ClaimedIsServable(site: SiteConfig, c: Context, l: string, p: string)
    requires SiteOk(site, c) && l in c.specs && c.specs[l].tls && Claims(site, c, l, p)
    ensures Servable(p, c.certs, c.withAcme, c.isIP)
  {
    hide Routes.RoutesOk, ValidPattern;
  }
}
