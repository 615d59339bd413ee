/** ACME needs a plain listener: compiling checks, refreshing does not (compile.go:131-133, server.go:297-308). */
module Refreshing {
  import opened Wrappers
  import opened Hosts
  import opened Certificates
  import opened Snapshots
  import opened Sites
  import Policies
  import Routes
  import opened Compile
  import Network
  import Binding
  import Gateway

  predicate PlainListener(snap: Snapshot) {
    exists n :: n in snap.listeners && !snap.listeners[n].tls
  }

  /** HTTP-01 challenges can be answered for every host that ACME manages. */
  predicate PlainIfManaged(snap: Snapshot) {
    snap.managedHosts != {} ==> PlainListener(snap)
  }

  lemma PlainInSpecs(listeners: seq<ListenerConfig>, minTLS: int, server: ServerConfig)
    requires ListenersOk(listeners)
    ensures HasPlain(listeners) <==>
            exists n :: n in SpecMap(listeners, minTLS, server) && !SpecMap(listeners, minTLS, server)[n].tls
  {
    hide SpecMap, ListenersOk;
    var specs := SpecMap(listeners, minTLS, server);
    SpecMapHolds(listeners, minTLS, server);
    if HasPlain(listeners) {
      var i :| 0 <= i < |listeners| && !listeners[i].tls;
      assert listeners[i].name in specs && !specs[listeners[i].name].tls;
    }
    if n :| n in specs && !specs[n].tls {
      assert HasName(listeners, n);
      var i :| 0 <= i < |listeners| && listeners[i].name == n;
      assert !listeners[i].tls;
    }
  }

  /** What compiling accepts has a plain listener if ACME manages anything. */
  lemma CompiledIsPlain(config: Config, world: World, prev: Option<Snapshot>, certs: Store, snap: Snapshot)
    requires Accepts(config, world, prev, certs)
    requires snap.config == config && snap.certs == certs && snap.acme == ManagerFor(config.acme, world, prev).value
    requires IsSnapshot(snap, ContextFor(config, certs, snap.acme, world))
    ensures PlainIfManaged(snap)
  {
    hide SpecMap, Dispatches, SitesOk, ListenersOk, ManagerFor, Readable;
    PlainInSpecs(Snapshots.Listeners(config, certs, snap.acme), config.minTLS.value, config.server);
    var c := ContextFor(config, certs, snap.acme, world);
    assert forall p | p in snap.managedHosts :: ServedOverTLS(config.sites, c, p) && ManagedPattern(p, c);
  }

  /** The snapshot after its certificates were read again. */
  function Refreshed(snap: Snapshot, certs: Store, isIP: string -> bool): Snapshot {
    snap.(certs := certs, managedHosts := Managed(snap.tlsHosts, certs, snap.acme.Some?, isIP))
  }

  /** Whatever the certificate files hold by then, refreshing keeps the condition. */
  ghost predicate RefreshKeepsPlain(snap: Snapshot, isIP: string -> bool) {
    forall world: World, certs: Store | Holding(snap.config, world, certs) ::
      PlainIfManaged(Refreshed(snap, certs, isIP))
  }

  /** It does if and only if there is a plain listener, ACME is off, or no TLS host is eligible. */
  lemma RefreshKeepsPlainIff(snap: Snapshot, isIP: string -> bool)
    ensures RefreshKeepsPlain(snap, isIP) <==>
            PlainListener(snap) || snap.acme.None? || forall h | h in snap.tlsHosts :: !AcmeEligible(h, isIP)
  {
    hide Holding;
    if snap.acme.Some? && exists h :: h in snap.tlsHosts && AcmeEligible(h, isIP) {
      var h :| h in snap.tlsHosts && AcmeEligible(h, isIP);
      var world, certs := AllExpired(snap.config, isIP, "a");
      NothingCovered(certs.current, h);
      assert h in Refreshed(snap, certs, isIP).managedHosts;
    }
  }

  // ----- What is still served -----

  /** Every name of every TLS pattern but `*` has a certificate, or waits for ACME to issue one. */
  ghost predicate AllServed(snap: Snapshot) {
    forall pattern, host, issued | pattern in snap.tlsHosts && pattern != "*" && Names(pattern, host) ::
      Select(snap.certs, snap.acme.Some?, issued, host).Some? || host in snap.managedHosts
  }

  /** That is so if and only if each pattern is covered, if only by a stale certificate, or ACME can issue for it. */
  lemma ServedIff(snap: Snapshot, isIP: string -> bool)
    requires WellFormed(snap.certs.current) && WellFormed(snap.certs.stale)
    requires snap.managedHosts == Managed(snap.tlsHosts, snap.certs, snap.acme.Some?, isIP)
    ensures AllServed(snap) <==>
            forall p | p in snap.tlsHosts && p != "*" :: Servable(p, snap.certs, snap.acme.Some?, isIP)
  {
    hide Match, Names;
    var withAcme := snap.acme.Some?;
    if forall p | p in snap.tlsHosts && p != "*" :: Servable(p, snap.certs, withAcme, isIP) {
      forall pattern, host, issued | pattern in snap.tlsHosts && pattern != "*" && Names(pattern, host)
        ensures Select(snap.certs, withAcme, issued, host).Some? || host in snap.managedHosts
      {
        CoverageMeansServable(snap.certs, withAcme, isIP, snap.tlsHosts, issued, pattern, host);
      }
    }
    if AllServed(snap) {
      forall p | p in snap.tlsHosts && p != "*"
        ensures Servable(p, snap.certs, withAcme, isIP)
      {
        assert Names(p, p) by { NamesItself(p); }
        assert Select(snap.certs, withAcme, map[], p).Some? || p in snap.managedHosts;
      }
    }
  }

  lemma NamesItself(p: string)
    ensures Names(p, p)
  {
  }

  /** Whatever the certificate files hold by then, everything is still served after refreshing. */
  ghost predicate RefreshKeepsServed(snap: Snapshot, isIP: string -> bool) {
    forall world: World, certs: Store | Holding(snap.config, world, certs) :: AllServed(Refreshed(snap, certs, isIP))
  }

  /** It is if and only if ACME could issue for every TLS pattern but `*`: coverage is not checked again. */
  lemma RefreshKeepsServedIff(snap: Snapshot, isIP: string -> bool)
    ensures RefreshKeepsServed(snap, isIP) <==>
            forall p | p in snap.tlsHosts && p != "*" :: snap.acme.Some? && AcmeEligible(p, isIP)
  {
    hide AllServed, Covers;
    forall world: World, certs: Store | Holding(snap.config, world, certs)
      ensures AllServed(Refreshed(snap, certs, isIP)) <==>
              forall p | p in snap.tlsHosts && p != "*" :: Servable(p, certs, snap.acme.Some?, isIP)
    {
      ServedIff(Refreshed(snap, certs, isIP), isIP);
    }
    if p :| p in snap.tlsHosts && p != "*" && !(snap.acme.Some? && AcmeEligible(p, isIP)) {
      var world, certs := AllExpired(snap.config, isIP, if p == "a" then "b" else "a");
      NothingCovered(certs.current, p);
      NotCovered(certs.stale, p);
    }
  }

  lemma NotCovered(t: Table<Certificate>, host: string)
    requires host != "*" && host !in t.exact && t.wildcard == map[] && t.fallback.None?
    ensures !Covers(t, host)
  {
  }

  // ----- Certificates that expire -----

  /** A certificate that is current at first and stale ever after. */
  function Short(name: string): Certificate {
    Certificate([name], 0, GRACE)
  }

  const SHORT := Short("a")

  function ReadShort(path: string): Option<Loaded> {
    Some(Parsed(SHORT))
  }

  function Reading(c: Certificate): string -> Option<Loaded> {
    path => Some(Parsed(c))
  }

  function NoPort(address: string): string {
    ""
  }

  function AnyMux(patterns: seq<string>): bool {
    true
  }

  /** A world in which every file holds it. */
  function At(now: int, isIP: string -> bool, manager: nat): World {
    World(ReadShort, NoSource, now, isIP, NoPort, AnyMux, Some(manager))
  }

  lemma NothingCovered(t: Table<Certificate>, host: string)
    requires t == Table(map[], map[], None) && host != "*"
    ensures !Covers(t, host)
  {
  }

  /** Every file may hold an expired certificate by the time it is read again. */
  lemma AllExpired(config: Config, isIP: string -> bool, name: string) returns (world: World, certs: Store)
    requires name == "a" || name == "b"
    ensures Holding(config, world, certs) && certs.current == Table(map[], map[], None)
    ensures certs.stale.exact.Keys <= {name} && certs.stale.wildcard == map[] && certs.stale.fallback.None?
  {
    hide Holds, NormalizeHost, IsCurrent;
    var c := Short(name);
    world := At(GRACE, isIP, 0).(read := Reading(c));
    var files := Files(config, world);
    ReadAll(files, c);
    var all := Leaves(Gathered(files, NoSource));
    Normalized();
    var stale: Table<Certificate> := Table(if all == [] then map[] else map[name := c], map[], None);
    certs := Store(Table(map[], map[], None), stale);
    ExpiredHolds(all, stale, name);
  }

  lemma Normalized()
    ensures NormalizeHost("a") == "a" && NormalizeHost("b") == "b"
  {
    assert TrimRight(TrimLeft("a")) == "a" && TrimRight(TrimLeft("b")) == "b";
    assert "a"[1..] == "" && "b"[1..] == "";
    assert Lower("a") == ['a'] + Lower("") && Lower("b") == ['b'] + Lower("");
  }

  lemma {:induction false} ReadAll(files: seq<Option<Loaded>>, c: Certificate)
    requires forall i | 0 <= i < |files| :: files[i] == Some(Parsed(c))
    ensures |Read(files)| == |files| && forall i | 0 <= i < |files| :: Read(files)[i] == Parsed(c)
  {
    if files != [] {
      ReadAll(files[1..], c);
    }
  }

  lemma ExpiredHolds(all: seq<Certificate>, stale: Table<Certificate>, a: string)
    requires forall i | 0 <= i < |all| :: all[i] == Short(a)
    requires NormalizeHost(a) == a && a != "*" && !IsWildcard(a)
    requires stale == Table(if all == [] then map[] else map[a := Short(a)], map[], None)
    ensures Holds(Table(map[], map[], None), all, GRACE, true) && Holds(stale, all, GRACE, false)
  {
    hide NormalizeHost;
    var c := Short(a);
    assert !IsCurrent(c, GRACE);
    assert Lists(c, a) by { assert NormalizeHost(c.names[0]) == a; }
    assert forall name :: Lists(c, name) ==> name == a;
    forall name
      ensures HoldsFor(stale, all, name, GRACE, false)
    {
      if name == a && all != [] {
        assert Wins(all, 0, a, GRACE, false) && all[0] == c;
      }
    }
  }

  // ----- A run in which the condition is lost -----

  /** One site behind one TLS listener, with a listed certificate and ACME on. */
  function OnlyTls(disabled: bool): Config {
    Config(
      1, disabled, ServerConfig([]), Some(0), ["a.crt"], Some(AcmeConfig("", "", "", "", "")), [],
      [ListenerConfig("https", ":443", true, true, [])],
      [SiteConfig("", ["a"], [], false, [], true, [], Some(true))])
  }

  lemma FreshCovers(off: bool, isIP: string -> bool, m: nat, certs: Store)
    requires Holding(OnlyTls(off), At(0, isIP, m), certs)
    ensures Covers(certs.current, "a")
  {
    AlwaysReadable(off, 0, isIP, m);
    var all := [SHORT];
    Normalized();
    assert NormalizeHost(all[0].names[0]) == "a";
    assert Competes(all, 0, "a", 0, true);
    assert HoldsFor(certs.current, all, "a", 0, true);
  }

  lemma AlwaysReadable(off: bool, now: int, isIP: string -> bool, m: nat)
    ensures Readable(OnlyTls(off), At(now, isIP, m))
    ensures Leaves(Gathered(Files(OnlyTls(off), At(now, isIP, m)), NoSource)) == [SHORT]
  {
    var files := Files(OnlyTls(off), At(now, isIP, m));
    assert files == [Some(Parsed(SHORT))];
    ReadAll(files, SHORT);
    assert Gathered(files, NoSource) == [Parsed(SHORT)];
  }

  const HOUR: int := 3600 * 1_000_000_000

  lemma LaterCoversNothing(off: bool, isIP: string -> bool, certs: Store)
    requires Holding(OnlyTls(off), At(HOUR, isIP, 0), certs)
    ensures !Covers(certs.current, "a")
  {
    AlwaysReadable(off, HOUR, isIP, 0);
    assert HoldsFor(certs.current, [SHORT], "a", HOUR, true);
    assert HoldsFor(certs.current, [SHORT], "*", HOUR, true);
    assert "a"[1..] == "";
    assert !HasDot("a");
  }

  lemma OnlyTlsRoutesOk(off: bool, policies: set<string>)
    ensures Routes.RoutesOk(OnlyTls(off).sites[0], policies, AnyMux)
  {
    assert "/" <= "/";
    hide Routes.Pattern, Routes.RouteName;
    assert Routes.RouteOk(Routes.RoutesOf(OnlyTls(off).sites[0])[0], policies);
  }

  lemma OnlyTlsPattern(off: bool, isIP: string -> bool)
    ensures Patterns(OnlyTls(off).sites[0]) == ["a"] && ValidPattern("a", isIP)
  {
    Normalized();
    hide NormalizeHost;
    assert !IsWildcard("a");
  }

  lemma OnlyTlsSiteOk(off: bool, c: Context)
    requires c.names == ["https"] && "https" in c.specs && Covers(c.certs.current, "a")
    requires c.mux == AnyMux
    ensures SitesOk(OnlyTls(off).sites, c)
    ensures forall p | ServedOverTLS(OnlyTls(off).sites, c, p) :: p == "a"
  {
    hide Routes.RoutesOk, ValidPattern, Patterns, Covers, NormalizeHost;
    OnlyTlsRoutesOk(off, c.policies);
    OnlyTlsPattern(off, c.isIP);
  }

  lemma ManagerIsNamed(off: bool, world: World, prev: Option<Snapshot>)
    requires world.newManager.Some?
    ensures
      var acme := ManagerFor(OnlyTls(off).acme, world, prev);
      acme.Some? && acme.value.Some?
  {
  }

  /** Listed certificate for the only site, ACME on, TLS only: accepted while the certificate lasts. */
  lemma OnlyTlsCompiles(off: bool, isIP: string -> bool, m: nat, prev: Option<Snapshot>, certs: Store)
    requires !isIP("a") && Sees(OnlyTls(off), At(0, isIP, m), certs)
    ensures Accepts(OnlyTls(off), At(0, isIP, m), prev, certs)
  {
    var world := At(0, isIP, m);
    AlwaysReadable(off, 0, isIP, m);
    FreshCovers(off, isIP, m, certs);
    hide Readable, Holding, Covers, ServedOverTLS, SitesOk, ListenersOk, SpecMap, ManagerFor;
    OneListenerOk(off);
    assert ManagerFor(OnlyTls(off).acme, world, prev).Some? by { ManagerIsNamed(off, world, prev); }
    var acme := ManagerFor(OnlyTls(off).acme, world, prev).value;
    var c := ContextFor(OnlyTls(off), certs, acme, world);
    SpecMapHolds(OnlyTls(off).listeners, 0, OnlyTls(off).server);
    assert c.names == ["https"];
    assert HasName(OnlyTls(off).listeners, "https") by { assert OnlyTls(off).listeners[0].name == "https"; }
    OnlyTlsSiteOk(off, c);
  }

  lemma OnlyTlsServesA(off: bool, snap: Snapshot, certs: Store, isIP: string -> bool, m: nat, c: Context)
    requires snap.config == OnlyTls(off) && snap.acme == ManagerFor(OnlyTls(off).acme, At(0, isIP, m), None).value
    requires c == ContextFor(OnlyTls(off), certs, snap.acme, At(0, isIP, m)) && IsSnapshot(snap, c)
    ensures "a" in snap.tlsHosts && !PlainListener(snap) && snap.acme.Some? && c.isIP == isIP
    ensures snap.listeners == map["https" := ListenerSpec(":443", true, 0, ServerConfig([]))]
  {
    hide Dispatches, SitesOk, Managed, WellFormed, ListenersOk;
    assert ListenersOk(OnlyTls(off).listeners) by { OneListenerOk(off); }
    SpecMapHolds(OnlyTls(off).listeners, 0, OnlyTls(off).server);
    PlainInSpecs(OnlyTls(off).listeners, 0, OnlyTls(off).server);
    assert OnlyTls(off).listeners[0].name in c.specs;
    assert c.names == ["https"];
    Normalized();
    assert Patterns(OnlyTls(off).sites[0]) == ["a"];
    assert Claims(OnlyTls(off).sites[0], c, "https", "a");
    assert ServedOverTLS(OnlyTls(off).sites, c, "a");
  }

  lemma OneListenerOk(off: bool)
    ensures ListenersOk(OnlyTls(off).listeners)
  {
  }

  /** A server for that configuration. */
  method OnlyTlsServer(host: Network.Host, isIP: string -> bool) returns (s: Gateway.Server)
    requires !isIP("a")
    ensures fresh(s) && s.Valid() && s.current.config == OnlyTls(false) && !s.started && s.isIP == isIP
    ensures "a" in s.current.tlsHosts && s.current.acme.Some? && !PlainListener(s.current)
    ensures s.current.listeners == map["https" := ListenerSpec(":443", true, 0, ServerConfig([]))]
    ensures s.host == host && s.net.open == map[] && s.leaving == {}
  {
    hide IsSnapshot, ContextFor, ManagerFor, Accepts, Sees, Readable, Holding, Covers;
    var compiled, limiters, certs := Compile.Compile(OnlyTls(false), At(0, isIP, 0), None, 0);
    OnlyTlsCompiles(false, isIP, 0, None, certs);
    var snap := compiled.value;
    ghost var c := ContextFor(OnlyTls(false), certs, snap.acme, At(0, isIP, 0));
    OnlyTlsServesA(false, snap, certs, isIP, 0, c);
    s := new Gateway.Server(host, isIP, snap, limiters, c);
  }

  /** Nothing outside is ever in the way of port 443. */
  ghost predicate Free443(host: Network.Host) {
    forall k: nat :: !host.env(k).fault && !Network.HeldOutside(host, host.env(k).foreign, ":443")
  }

  lemma OnlyTlsBinds(host: Network.Host, net: Network.Net, after: Network.Net, bound: Binding.Specs, ok: bool)
    requires Free443(host) && net.open == map[]
    requires bound == map["https" := ListenerSpec(":443", true, 0, ServerConfig([]))]
    requires Binding.SwitchDecided(host, net, after, map[], {}, bound, ok)
    ensures ok
  {
    hide Binding.Decided, Network.HeldOutside;
    assert Binding.Fixed(bound["https"]);
    assert !Binding.Picks(bound) && Binding.Disjoint(host, bound);
  }

  lemma SamePlain(snap: Snapshot, snap': Snapshot)
    requires snap'.listeners == snap.listeners
    ensures PlainListener(snap') == PlainListener(snap)
  {
  }

  /** Started, and refreshed an hour later, it has to issue a certificate, and no listener can answer the challenge. */
  method RefreshLosesPlain(host: Network.Host, isIP: string -> bool) returns (s: Gateway.Server)
    requires !isIP("a") && Free443(host)
    ensures fresh(s) && s.Valid() && s.started && s.current.config == OnlyTls(false)
    ensures s.current.managedHosts != {} && !PlainListener(s.current)
  {
    hide Readable, Holding, Covers, PlainListener, At, Free443, Gateway.Server.Valid, Binding.SwitchDecided;
    s := OnlyTlsServer(host, isIP);
    ghost var before, net := s.current, s.net;
    var error := s.Start();
    OnlyTlsBinds(host, net, s.net, Gateway.BoundBy(s.current), error.None?);
    AlwaysReadable(false, HOUR, isIP, 0);
    var failure := s.Refresh(At(HOUR, isIP, 0));
    SamePlain(before, s.current);
    LaterCoversNothing(false, isIP, s.current.certs);
    assert AcmeEligible("a", isIP);
    assert "a" in s.current.managedHosts;
  }
}
