/** Compiling a configuration into a snapshot (compile.go:62-143). */
module Compile {
  import opened Wrappers
  import opened Hosts
  import opened Certificates
  import opened Snapshots
  import opened Sites
  import Policies
  import Routes

  const LETS_ENCRYPT := "https://acme-v02.api.letsencrypt.org/directory"

  function WithDirectory(a: AcmeConfig): AcmeConfig {
    if a.directory == "" then a.(directory := LETS_ENCRYPT) else a
  }

  /** acmeManagerFor: an unchanged ACME section keeps the previous manager. None is an error. */
  function ManagerFor(config: Option<AcmeConfig>, world: World, prev: Option<Snapshot>): Option<Option<Manager>> {
    if config.None? then Some(None)
    else
      var want := WithDirectory(config.value);
      if prev.Some? && prev.value.acme.Some? && prev.value.acme.value.config == want then Some(prev.value.acme)
      else if world.newManager.Some? then Some(Some(Manager(world.newManager.value, want)))
      else None
  }

  function ContextFor(config: Config, certs: Store, acme: Option<Manager>, world: World): Context
    requires config.minTLS.Some?
  {
    var listeners := Listeners(config, certs, acme);
    Context(seq(|listeners|, i requires 0 <= i < |listeners| => listeners[i].name),
            SpecMap(listeners, config.minTLS.value, config.server), certs, acme.Some?,
            PolicyNames(config), world.isIP, world.port, world.mux)
  }

  function PolicyNames(config: Config): set<string> {
    set i | 0 <= i < |config.policies| :: config.policies[i].name
  }

  /** The policies compiled before, whose limiters unchanged ones keep. */
  function PrevPolicies(prev: Option<Snapshot>): Policies.PolicyTable {
    if prev.Some? then prev.value.policies else map[]
  }

  predicate PoliciesKnown(listeners: seq<ListenerConfig>, policies: set<string>) {
    forall i | 0 <= i < |listeners| :: Routes.Declared(listeners[i].policies, policies)
  }

  predicate HasPlain(listeners: seq<ListenerConfig>) {
    exists i :: 0 <= i < |listeners| && !listeners[i].tls
  }

  /** Sites agree with each other: their IDs differ, and no two claim one pattern on one listener. */
  ghost predicate Compatible(sites: seq<SiteConfig>, c: Context) {
    forall i, j | 0 <= i < j < |sites| ::
      SiteID(sites[i]) != SiteID(sites[j])
      && forall l, p :: !(Claims(sites[i], c, l, p) && Claims(sites[j], c, l, p))
  }

  /** What may be kept from the configuration before is what this configuration asks for. */
  ghost predicate AsConfigured(snap: Snapshot) {
    && PoliciesInForce(snap.config, snap.policies)
    && match snap.config.acme
       case None => snap.acme.None?
       case Some(a) =>
         && snap.acme.Some?
         && snap.acme.value.config == a.(directory := if a.directory == "" then LETS_ENCRYPT else a.directory)
  }

  ghost predicate PoliciesInForce(config: Config, policies: Policies.PolicyTable) {
    forall i | 0 <= i < |config.policies| ::
      var d := config.policies[i];
      d.name in policies && policies[d.name].definition == d
  }

  /** What every compiled snapshot satisfies; the certificates may be read again later. */
  ghost predicate IsSnapshot(snap: Snapshot, c: Context) {
    && snap.listeners == c.specs && DistinctAddresses(snap.listeners) && snap.policies.Keys == c.policies
    && SitesOk(snap.config.sites, c) && Dispatches(snap.tables, snap.config.sites, c)
    && (forall p :: p in snap.tlsHosts <==> ServedOverTLS(snap.config.sites, c, p))
    && WellFormed(snap.certs.current) && WellFormed(snap.certs.stale)
    && snap.managedHosts == Managed(snap.tlsHosts, snap.certs, snap.acme.Some?, c.isIP) && AsConfigured(snap)
  }

  /** Every site is fine by itself and all are compatible. */
  ghost predicate SitesOk(sites: seq<SiteConfig>, c: Context) {
    (forall i | 0 <= i < |sites| :: SiteOk(sites[i], c)) && Compatible(sites, c)
  }

  /** `certs` are the certificates of the world, if the configuration gets as far as loading them. */
  ghost predicate Sees(config: Config, world: World, certs: Store) {
    (config.version == 0 || config.version == 1) && config.minTLS.Some? && Readable(config, world)
    ==> Holding(config, world, certs)
  }

  /** When a configuration compiles, given the certificates that were loaded. */
  ghost predicate Accepts(config: Config, world: World, prev: Option<Snapshot>, certs: Store) {
    && (config.version == 0 || config.version == 1) && config.minTLS.Some?
    && Readable(config, world) && Policies.Acceptable(config.policies, PrevPolicies(prev))
    && ManagerFor(config.acme, world, prev).Some?
    && var acme := ManagerFor(config.acme, world, prev).value;
       var listeners, c := Listeners(config, certs, acme), ContextFor(config, certs, acme, world);
       && ListenersOk(listeners) && SitesOk(config.sites, c) && PoliciesKnown(listeners, c.policies)
       && (HasPlain(listeners) || forall p | ServedOverTLS(config.sites, c, p) :: !ManagedPattern(p, c))
  }

  /** ACME would have to issue for `p`. */
  predicate ManagedPattern(p: string, c: Context) {
    c.withAcme && AcmeEligible(p, c.isIP) && !Covers(c.certs.current, p)
  }

  lemma SitesOkNext(sites: seq<SiteConfig>, site: SiteConfig, c: Context)
    ensures SitesOk(sites + [site], c) <==>
            SitesOk(sites, c) && SiteOk(site, c) && !Clashes(site, sites, c)
            && forall i | 0 <= i < |sites| :: SiteID(sites[i]) != SiteID(site)
  {
    hide SiteOk, Claims, SiteID;
    var more := sites + [site];
    assert more[|sites|] == site && forall i | 0 <= i < |sites| :: more[i] == sites[i];
    if SitesOk(more, c) {
      assert forall i | 0 <= i < |sites| :: SiteOk(more[i], c);
    }
  }

  lemma SiteOkHasID(site: SiteConfig, c: Context)
    requires SiteOk(site, c)
    ensures SiteID(site) != ""
  {
    assert Patterns(site)[0] in Patterns(site);
  }

  method CompileSites(sites: seq<SiteConfig>, c: Context) returns (r: Result<(Tables, set<string>), Error>)
    requires c.names != []
    ensures r.Ok? <==> SitesOk(sites, c)
    ensures r.Ok? ==> Dispatches(r.value.0, sites, c)
    ensures r.Ok? ==> forall p :: p in r.value.1 <==> ServedOverTLS(sites, c, p)
  {
    hide Dispatches, SiteOk, Clashes, SiteID;
    var compiler := new Compiler(c);
    assert sites[..0] == [];
    var ids: set<string> := {};
    for n := 0 to |sites|
      invariant fresh(compiler) && compiler.c == c
      invariant SitesOk(sites[..n], c) && Dispatches(compiler.tables, sites[..n], c)
      invariant forall p :: p in compiler.tlsHosts <==> ServedOverTLS(sites[..n], c, p)
      invariant ids == set i | 0 <= i < n :: SiteID(sites[i])
    {
      var site, id := sites[n], SiteID(sites[n]);
      ghost var done := sites[..n];
      assert sites[..n + 1] == done + [site];
      SitesOkNext(done, site, c);
      if SitesOk(sites, c) {
        SitesOkPrefix(sites, n + 1, c);
      }
      if id != "" && id in ids {
        return Err(DuplicateSite);
      }
      ids := ids + {id};
      var error := compiler.AddSite(site, done, n);
      if error.Some? {
        return Err(error.value);
      }
      SiteOkHasID(site, c);
    }
    assert sites[..|sites|] == sites;
    return Ok((compiler.tables, compiler.tlsHosts));
  }

  lemma SitesOkPrefix(sites: seq<SiteConfig>, n: nat, c: Context)
    requires SitesOk(sites, c) && n <= |sites|
    ensures SitesOk(sites[..n], c)
  {
    hide SiteOk, Claims, SiteID;
    assert forall i | 0 <= i < n :: sites[..n][i] == sites[i];
  }

  /** The policies of a snapshot: unchanged ones keep their limiters, others get numbers from `first` on. */
  ghost predicate HasPolicies(snap: Snapshot, config: Config, prev: Option<Snapshot>, first: nat, next: nat) {
    Policies.Compiles(config.policies, PrevPolicies(prev), snap.policies, first, next)
    && Policies.SoundTable(snap.policies, next)
    && Policies.Carried(config.policies, PrevPolicies(prev), snap.policies)
  }

  /** Main operation: all checks, in the order of the source. */
  method Compile(config: Config, world: World, prev: Option<Snapshot>, first: nat)
    returns (r: Result<Snapshot, Error>, next: nat, ghost certs: Store)
    requires Policies.SoundTable(PrevPolicies(prev), first)
    ensures Sees(config, world, certs) && first <= next
    ensures r.Ok? <==> Accepts(config, world, prev, certs)
    ensures r.Ok? ==> config.minTLS.Some? && ManagerFor(config.acme, world, prev).Some?
    ensures r.Ok? ==>
              var snap := r.value;
              && snap.config == config && snap.certs == certs && snap.acme == ManagerFor(config.acme, world, prev).value
              && IsSnapshot(snap, ContextFor(config, certs, snap.acme, world))
              && HasPolicies(snap, config, prev, first, next)
  {
    hide IsSnapshot, ManagerFor, ContextFor, SitesOk, ListenersOk, Policies.SoundTable, Policies.Compiles;
    hide Policies.Acceptable, PoliciesKnown, Policies.Carried, PoliciesInForce;
    certs, next := Store(Table(map[], map[], None), Table(map[], map[], None)), first;
    if config.version != 0 && config.version != 1 {
      return Err(BadVersion), next, certs;
    }
    if config.minTLS.None? {
      return Err(BadTLSVersion), next, certs;
    }
    var loaded := LoadCertificates(Files(config, world), world.source, world.now);
    if loaded.Err? {
      return Err(BadCertificates(loaded.error)), next, certs;
    }
    certs := loaded.value;
    var table;
    table, next := Policies.CompilePolicies(config.policies, PrevPolicies(prev), first);
    if table.Err? {
      return Err(BadPolicy(table.error)), next, certs;
    }
    TableNames(config, PrevPolicies(prev), table.value, first, next);
    r := CompileRest(config, world, prev, loaded.value, table.value);
  }

  lemma TableNames(config: Config, prev: Policies.PolicyTable, table: Policies.PolicyTable, first: nat, next: nat)
    requires Policies.Compiles(config.policies, prev, table, first, next)
    requires Policies.Carried(config.policies, prev, table)
    ensures table.Keys == PolicyNames(config) && PoliciesInForce(config, table)
  {
    hide Policies.Entry;
  }

  lemma ManagerIsConfigured(config: Option<AcmeConfig>, world: World, prev: Option<Snapshot>)
    ensures
      var r := ManagerFor(config, world, prev);
      r.Some? ==>
        match config
        case None => r.value.None?
        case Some(a) =>
          && r.value.Some?
          && r.value.value.config == a.(directory := if a.directory == "" then LETS_ENCRYPT else a.directory)
  {
  }

  /** The rest, once the certificates are loaded and the policies compiled. */
  method CompileRest(config: Config, world: World, prev: Option<Snapshot>, certs: Store, policies: Policies.PolicyTable)
    returns (r: Result<Snapshot, Error>)
    requires (config.version == 0 || config.version == 1) && config.minTLS.Some?
    requires Readable(config, world) && WellFormed(certs.current) && WellFormed(certs.stale)
    requires Policies.Acceptable(config.policies, PrevPolicies(prev)) && policies.Keys == PolicyNames(config)
    requires PoliciesInForce(config, policies)
    ensures r.Ok? <==> Accepts(config, world, prev, certs)
    ensures r.Ok? ==> ManagerFor(config.acme, world, prev).Some?
    ensures r.Ok? ==>
              var snap := r.value;
              && snap.config == config && snap.certs == certs && snap.acme == ManagerFor(config.acme, world, prev).value
              && snap.policies == policies && IsSnapshot(snap, ContextFor(config, certs, snap.acme, world))
  {
    hide Readable, Dispatches, SitesOk, ListenersOk, SpecMap, ServedOverTLS, ManagerFor, HasPlain, PoliciesKnown;
    hide Policies.Acceptable, PrevPolicies, PolicyNames, PoliciesInForce;
    var manager := ManagerFor(config.acme, world, prev);
    if manager.None? {
      return Err(BadManager);
    }
    var acme := manager.value;
    var listeners := Listeners(config, certs, acme);
    var specs := CompileListeners(listeners, config.minTLS.value, config.server);
    if specs.None? {
      return Err(BadListener);
    }
    var c := ContextFor(config, certs, acme, world);
    var compiled := CompileSites(config.sites, c);
    if compiled.Err? {
      return Err(compiled.error);
    }
    var (tables, tlsHosts) := compiled.value;
    var managed := ManagedHosts(tlsHosts, certs, acme, world.isIP);
    assert forall p :: p in managed <==> ServedOverTLS(config.sites, c, p) && ManagedPattern(p, c);
    if managed != {} && !HasPlain(listeners) {
      var p :| p in managed;
      return Err(NoPlainListener);
    }
    var known := CheckListenerPolicies(listeners, c.policies);
    if !known {
      return Err(UnknownPolicy);
    }
    ManagerIsConfigured(config.acme, world, prev);
    return Ok(Snapshot(config, specs.value, tables, certs, policies, acme, tlsHosts, managed));
  }

  method CheckListenerPolicies(listeners: seq<ListenerConfig>, policies: set<string>) returns (ok: bool)
    ensures ok <==> PoliciesKnown(listeners, policies)
  {
    hide Routes.Declared;
    for i := 0 to |listeners|
      invariant PoliciesKnown(listeners[..i], policies)
    {
      ok := Routes.CheckKnown(listeners[i].policies, policies);
      if !ok {
        return;
      }
    }
    assert listeners[..|listeners|] == listeners;
    return true;
  }

  // ----- What an accepted configuration guarantees -----

  /** Site `i` is the one that claims pattern `p` on listener `l`. */
  ghost predicate Owns(sites: seq<SiteConfig>, c: Context, i: nat, l: string, p: string) {
    i < |sites| && Claims(sites[i], c, l, p)
    && forall j | 0 <= j < |sites| && Claims(sites[j], c, l, p) :: j == i
  }

  ghost predicate Unowned(sites: seq<SiteConfig>, c: Context, l: string, p: string) {
    forall j | 0 <= j < |sites| :: !Claims(sites[j], c, l, p)
  }

  /** The owner of the `k`-th candidate answers, and nobody owns a more specific one. */
  ghost predicate AnsweredBy(e: SiteEntry, k: nat, sites: seq<SiteConfig>, c: Context, l: string, host: string) {
    && k < |Candidates(host)|
    && Owns(sites, c, e.site, l, Candidates(host)[k])
    && e.redirect == Redirects(sites[e.site], l, c)
    && forall j | 0 <= j < k :: Unowned(sites, c, l, Candidates(host)[j])
  }

  /**
   Main result: a request goes to the one site that owns the most specific pattern that any
   site claims for its host on that listener, and to nobody when no pattern is claimed.
   */
  lemma DispatchPicksMostSpecific(snap: Snapshot, c: Context, l: string, host: string)
    requires IsSnapshot(snap, c) && l in snap.listeners
    ensures match Match(snap.tables[l], host)
            case None => forall p | p in Candidates(host) :: Unowned(snap.config.sites, c, l, p)
            case Some(e) => exists k :: AnsweredBy(e, k, snap.config.sites, c, l, host)
  {
    hide SitesOk, ServedOverTLS, Managed, DistinctAddresses, Claims, Redirects, Candidates, Get;
    var t, patterns := snap.tables[l], Candidates(host);
    MatchIsFirstCandidate(t, host);
    var k := FirstEntry(t, patterns);
    assert forall j | 0 <= j < |patterns| :: Owner(Get(t, patterns[j]), snap.config.sites, c, l, patterns[j]);
    if k < |patterns| {
      assert AnsweredBy(Get(t, patterns[k]).value, k, snap.config.sites, c, l, host);
    }
  }

  /** Everything served over TLS can be served, or waits for ACME (see CoverageMeansServable). */
  lemma AcceptedIsServable(config: Config, world: World, prev: Option<Snapshot>, certs: Store, snap: Snapshot,
                           issued: map<string, Certificate>, i: nat, l: string, pattern: string, host: string)
    requires Accepts(config, world, prev, certs)
    requires snap.config == config && snap.certs == certs && snap.acme == ManagerFor(config.acme, world, prev).value
    requires IsSnapshot(snap, ContextFor(config, certs, snap.acme, world))
    requires i < |config.sites| && l in snap.listeners && snap.listeners[l].tls
    requires Claims(config.sites[i], ContextFor(config, certs, snap.acme, world), l, pattern)
    requires pattern != "*" && Names(pattern, host)
    ensures Select(certs, snap.acme.Some?, issued, host).None? <==>
            host in snap.managedHosts && host !in issued && Match(certs.stale, host).None?
  {
    var c := ContextFor(config, certs, snap.acme, world);
    assert SiteOk(config.sites[i], c);
    assert ServedOverTLS(config.sites, c, pattern);
    CoverageMeansServable(certs, snap.acme.Some?, world.isIP, snap.tlsHosts, issued, pattern, host);
  }
}
