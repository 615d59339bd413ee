/** Entering sites into the host tables of their listeners (compile.go:208-290). */
module Sites {
  import opened Wrappers
  import opened Hosts
  import opened Certificates
  import opened Snapshots
  import Routes

  /** What compiling a site looks at besides the site. */
  datatype Context = Context(
    names: seq<string>,
    specs: map<string, ListenerSpec>,
    certs: Store,
    withAcme: bool,
    policies: set<string>,
    isIP: string -> bool,
    port: string -> string,
    mux: seq<string> -> bool)

  function SiteID(site: SiteConfig): string {
    if site.name != "" then site.name
    else if site.hosts != [] then NormalizeHost(site.hosts[0])
    else ""
  }

  function Patterns(site: SiteConfig): (patterns: seq<string>)
    ensures |patterns| == |site.hosts|
    ensures forall i | 0 <= i < |patterns| :: patterns[i] == NormalizeHost(site.hosts[i])
  {
    seq(|site.hosts|, i requires 0 <= i < |site.hosts| => NormalizeHost(site.hosts[i]))
  }

  /** The listeners a site is served on: the ones it lists, or all. */
  function Served(site: SiteConfig, c: Context): seq<string> {
    if site.listeners == [] then c.names else site.listeners
  }

  /** The port of the first TLS listener of the site that has one. */
  function HttpsPort(served: seq<string>, c: Context): string {
    if served == [] then ""
    else if served[0] in c.specs && c.specs[served[0]].tls && c.port(c.specs[served[0]].address) != ""
    then c.port(c.specs[served[0]].address)
    else HttpsPort(served[1..], c)
  }

  predicate Redirects(site: SiteConfig, l: string, c: Context) {
    l in c.specs && !c.specs[l].tls && !site.allowHTTP && HttpsPort(Served(site, c), c) != ""
  }

  /** The site claims pattern `p` on listener `l`. */
  predicate Claims(site: SiteConfig, c: Context, l: string, p: string) {
    l in Served(site, c) && p in Patterns(site)
  }

  /** No two of them are equal. */
  predicate Distinct(s: seq<string>) {
    forall i, j | 0 <= i < j < |s| :: s[i] != s[j]
  }

  /** A site by itself: everything but a clash with another site. */
  ghost predicate SiteOk(site: SiteConfig, c: Context) {
    && site.hosts != [] && Routes.RoutesOk(site, c.policies, c.mux)
    && (forall p | p in Patterns(site) :: ValidPattern(p, c.isIP))
    && (forall l | l in Served(site, c) :: l in c.specs)
    && (forall l, p | Claims(site, c, l, p) && c.specs[l].tls :: Servable(p, c.certs, c.withAcme, c.isIP))
    && Distinct(Served(site, c)) && Distinct(Patterns(site))
  }

  // ----- Tables -----

  type Tables = map<string, Table<SiteEntry>>

  /** `entry` is what listener `l` holds for pattern `p` once these sites are entered. */
  ghost predicate Owner(entry: Option<SiteEntry>, sites: seq<SiteConfig>, c: Context, l: string, p: string) {
    match entry
    case None => forall i | 0 <= i < |sites| :: !Claims(sites[i], c, l, p)
    case Some(e) =>
      && e.site < |sites| && Claims(sites[e.site], c, l, p)
      && e.redirect == Redirects(sites[e.site], l, c)
      && forall i | 0 <= i < |sites| && i != e.site :: !Claims(sites[i], c, l, p)
  }

  ghost predicate Dispatches(tables: Tables, sites: seq<SiteConfig>, c: Context) {
    && tables.Keys == c.specs.Keys
    && (forall l | l in tables :: WellFormed(tables[l]))
    && (forall l, p | l in tables :: Owner(Get(tables[l], p), sites, c, l, p))
  }

  /** `p` is served over TLS by one of the sites. */
  ghost predicate ServedOverTLS(sites: seq<SiteConfig>, c: Context, p: string) {
    exists i, l :: 0 <= i < |sites| && l in c.specs && c.specs[l].tls && Claims(sites[i], c, l, p)
  }

  // ----- One site -----

  ghost predicate Complete(tables: Tables, c: Context) {
    tables.Keys == c.specs.Keys && forall l | l in tables :: WellFormed(tables[l])
  }

  ghost predicate AnyTLS(served: seq<string>, c: Context) {
    exists l :: l in served && l in c.specs && c.specs[l].tls
  }

  function EntryAfter(site: SiteConfig, n: nat, a: nat, c: Context, l: string, p: string,
                      before: Option<SiteEntry>): Option<SiteEntry>
    requires a <= |Served(site, c)|
  {
    if l in Served(site, c)[..a] && p in Patterns(site) then Some(SiteEntry(n, Redirects(site, l, c))) else before
  }

  /** What `before` becomes once site `n` is entered on the first `a` of its listeners. */
  ghost predicate EnteredUpTo(before: Tables, after: Tables, site: SiteConfig, n: nat, a: nat, c: Context) {
    && a <= |Served(site, c)|
    && Complete(before, c) && Complete(after, c)
    && forall l, p | l in after ::
         Get(after[l], p) == EntryAfter(site, n, a, c, l, p, Get(before[l], p))
  }

  /** Nobody else, and the site itself only once, claims these listeners. */
  ghost predicate Unclaimed(before: Tables, site: SiteConfig, a: nat, c: Context) {
    && a <= |Served(site, c)| && Distinct(Served(site, c)[..a])
    && forall l, p | l in Served(site, c)[..a] && p in Patterns(site) :: l in before && Get(before[l], p).None?
  }

  ghost predicate Covered(site: SiteConfig, a: nat, c: Context) {
    && a <= |Served(site, c)|
    && forall l, p | l in Served(site, c)[..a] && l in c.specs && c.specs[l].tls && p in Patterns(site) ::
         Servable(p, c.certs, c.withAcme, c.isIP)
  }

  lemma StartSite(before: Tables, site: SiteConfig, n: nat, c: Context)
    requires Complete(before, c)
    ensures EnteredUpTo(before, before, site, n, 0, c) && Unclaimed(before, site, 0, c) && Covered(site, 0, c)
    ensures !AnyTLS(Served(site, c)[..0], c)
  {
  }

  lemma AnyTLSNext(served: seq<string>, a: nat, c: Context)
    requires a < |served|
    ensures AnyTLS(served[..a + 1], c) <==> AnyTLS(served[..a], c) || (served[a] in c.specs && c.specs[served[a]].tls)
  {
    assert served[..a + 1] == served[..a] + [served[a]];
  }

  lemma CoveredNext(site: SiteConfig, a: nat, c: Context)
    requires a < |Served(site, c)| && Served(site, c)[a] in c.specs && Covered(site, a, c)
    requires c.specs[Served(site, c)[a]].tls ==>
               forall p | p in Patterns(site) :: Servable(p, c.certs, c.withAcme, c.isIP)
    ensures Covered(site, a + 1, c)
  {
    hide Servable;
    var served := Served(site, c);
    assert served[..a + 1] == served[..a] + [served[a]];
  }

  lemma NotCovered(site: SiteConfig, a: nat, c: Context)
    requires a < |Served(site, c)| && Served(site, c)[a] in c.specs && c.specs[Served(site, c)[a]].tls
    requires exists p :: p in Patterns(site) && !Servable(p, c.certs, c.withAcme, c.isIP)
    ensures !Covered(site, |Served(site, c)|, c)
  {
    var served := Served(site, c);
    assert served[a] in served[..|served|];
  }

  /** Why the hosts could not be entered: the site repeats itself, or another site was first. */
  lemma NotUnclaimed(first: Tables, before: Tables, site: SiteConfig, n: nat, a: nat, c: Context)
    requires EnteredUpTo(first, before, site, n, a, c) && a < |Served(site, c)| && Served(site, c)[a] in c.specs
    requires Distinct(Patterns(site)) ==> exists p :: p in Patterns(site) && Get(before[Served(site, c)[a]], p).Some?
    ensures !(Unclaimed(first, site, |Served(site, c)|, c) && Distinct(Patterns(site)))
  {
    var served, l := Served(site, c), Served(site, c)[a];
    assert served[..|served|] == served;
    assert Distinct(served) ==> l !in served[..a];
  }

  lemma EnterNext(first: Tables, before: Tables, after: Tables, site: SiteConfig, n: nat, a: nat, c: Context)
    requires EnteredUpTo(first, before, site, n, a, c) && Unclaimed(first, site, a, c) && site.hosts != []
    requires a < |Served(site, c)| && Served(site, c)[a] in c.specs
    requires Complete(after, c)
    requires var l := Served(site, c)[a];
             && (forall k | k in after && k != l :: after[k] == before[k])
             && (forall p | p in Patterns(site) :: Get(before[l], p).None?)
             && (forall p :: Get(after[l], p) ==
                               if p in Patterns(site) then Some(SiteEntry(n, Redirects(site, l, c)))
                               else Get(before[l], p))
    ensures EnteredUpTo(first, after, site, n, a + 1, c) && Unclaimed(first, site, a + 1, c)
  {
    hide Get, Redirects, NormalizeHost;
    var served, l := Served(site, c), Served(site, c)[a];
    assert served[..a + 1] == served[..a] + [l];
    assert Patterns(site)[0] in Patterns(site);
    assert l !in served[..a];
  }

  class Compiler {
    const c: Context
    var tables: Tables
    var tlsHosts: set<string>

    constructor (c: Context)
      ensures this.c == c && tlsHosts == {} && Dispatches(tables, [], c)
    {
      this.c := c;
      tables := map l | l in c.specs :: Table(map[], map[], None);
      tlsHosts := {};
    }

    /** Checks the hosts, routes and listeners of a site; changes nothing. */
    method CheckSite(site: SiteConfig) returns (error: Option<Error>)
      ensures error.None? ==> site.hosts != [] && Routes.RoutesOk(site, c.policies, c.mux)
      ensures error.None? ==> forall p | p in Patterns(site) :: ValidPattern(p, c.isIP)
      ensures error.None? ==> forall l | l in Served(site, c) :: l in c.specs
      ensures error.Some? ==> !SiteOk(site, c)
    {
      hide ValidPattern, Routes.RoutesOk;
      if site.hosts == [] {
        return Some(NoHosts);
      }
      var hosts := Patterns(site);
      for i := 0 to |hosts|
        invariant forall j | 0 <= j < i :: ValidPattern(hosts[j], c.isIP)
      {
        if !ValidPattern(hosts[i], c.isIP) {
          assert hosts[i] in Patterns(site);
          return Some(BadHost);
        }
      }
      var failure := Routes.CompileRoutes(site, c.policies, c.mux);
      if failure.Some? {
        return failure;
      }
      var served := Served(site, c);
      for i := 0 to |served|
        invariant forall j | 0 <= j < i :: served[j] in c.specs
      {
        if served[i] !in c.specs {
          assert served[i] in Served(site, c);
          return Some(UnknownListener);
        }
      }
      return None;
    }

    /** Every host of the site can be served over TLS. */
    method RequireCertificates(hosts: seq<string>) returns (ok: bool)
      modifies this`tlsHosts
      ensures ok <==> forall p | p in hosts :: Servable(p, c.certs, c.withAcme, c.isIP)
      ensures ok ==> tlsHosts == old(tlsHosts) + (set p | p in hosts)
    {
      for i := 0 to |hosts|
        invariant forall j | 0 <= j < i :: Servable(hosts[j], c.certs, c.withAcme, c.isIP)
        invariant tlsHosts == old(tlsHosts) + (set p | p in hosts[..i])
      {
        assert hosts[..i + 1] == hosts[..i] + [hosts[i]];
        tlsHosts := tlsHosts + {hosts[i]};
        if !Servable(hosts[i], c.certs, c.withAcme, c.isIP) {
          return false;
        }
      }
      assert hosts[..|hosts|] == hosts;
      return true;
    }

    /** Enters all hosts of a site into one table, unless one of them is taken. */
    method EnterHosts(l: string, hosts: seq<string>, entry: SiteEntry) returns (ok: bool)
      requires Complete(tables, c) && l in c.specs
      modifies this`tables
      ensures ok <==> Distinct(hosts) && forall p | p in hosts :: Get(old(tables)[l], p).None?
      ensures ok ==> Complete(tables, c)
                     && (forall k | k in tables && k != l :: tables[k] == old(tables)[k])
                     && (forall p :: Get(tables[l], p) == if p in hosts then Some(entry) else Get(old(tables)[l], p))
    {
      for i := 0 to |hosts|
        invariant tables.Keys == old(tables).Keys && WellFormed(tables[l])
        invariant forall k | k in tables && k != l :: tables[k] == old(tables)[k]
        invariant forall p :: Get(tables[l], p) == if p in hosts[..i] then Some(entry) else Get(old(tables)[l], p)
        invariant Distinct(hosts[..i]) && forall p | p in hosts[..i] :: Get(old(tables)[l], p).None?
      {
        assert hosts[..i + 1] == hosts[..i] + [hosts[i]];
        if Get(tables[l], hosts[i]).Some? {
          if hosts[i] in hosts[..i] {
            var j :| 0 <= j < i && hosts[j] == hosts[i];
          }
          return false;
        }
        UpdatedGet(tables[l], hosts[i], entry);
        tables := tables[l := Updated(tables[l], hosts[i], entry)];
      }
      assert hosts[..|hosts|] == hosts;
      return true;
    }

    /** Serves a checked site on its listeners. */
    method ServeSite(site: SiteConfig, n: nat) returns (ok: bool)
      requires Complete(tables, c) && site.hosts != []
      requires Served(site, c) != [] && forall l | l in Served(site, c) :: l in c.specs
      modifies this
      ensures ok <==> Unclaimed(old(tables), site, |Served(site, c)|, c) && Covered(site, |Served(site, c)|, c)
                      && Distinct(Patterns(site))
      ensures ok ==> EnteredUpTo(old(tables), tables, site, n, |Served(site, c)|, c)
      ensures ok ==> tlsHosts == old(tlsHosts) + (set p | p in Patterns(site) && AnyTLS(Served(site, c), c))
    {
      hide Get, Redirects, Unclaimed, Complete, Distinct, Servable, EnteredUpTo, Covered, AnyTLS;
      var served, hosts := Served(site, c), Patterns(site);
      StartSite(tables, site, n, c);
      for a := 0 to |served|
        invariant EnteredUpTo(old(tables), tables, site, n, a, c)
        invariant Unclaimed(old(tables), site, a, c) && Covered(site, a, c) && Complete(tables, c)
        invariant a > 0 ==> Distinct(hosts)
        invariant tlsHosts == old(tlsHosts) + (set p | p in hosts && AnyTLS(served[..a], c))
      {
        var l := served[a];
        AnyTLSNext(served, a, c);
        if c.specs[l].tls {
          var covered := RequireCertificates(hosts);
          if !covered {
            NotCovered(site, a, c);
            return false;
          }
        }
        CoveredNext(site, a, c);
        ghost var before := tables;
        var entered := EnterHosts(l, hosts, SiteEntry(n, Redirects(site, l, c)));
        if !entered {
          NotUnclaimed(old(tables), before, site, n, a, c);
          return false;
        }
        EnterNext(old(tables), before, tables, site, n, a, c);
      }
      assert served[..|served|] == served;
      return true;
    }

    /** Checks one site and enters it; `sites` are the ones entered before. */
    method AddSite(site: SiteConfig, ghost sites: seq<SiteConfig>, n: nat) returns (error: Option<Error>)
      requires Dispatches(tables, sites, c) && n == |sites| && c.names != []
      requires forall p :: p in tlsHosts <==> ServedOverTLS(sites, c, p)
      modifies this
      ensures error.None? <==> SiteOk(site, c) && !Clashes(site, sites, c)
      ensures error.None? ==> Dispatches(tables, sites + [site], c)
      ensures error.None? ==> forall p :: p in tlsHosts <==> ServedOverTLS(sites + [site], c, p)
    {
      error := CheckSite(site);
      if error.Some? {
        return;
      }
      if site.listeners == [] { assert Served(site, c) == c.names; }
      var ok := ServeSite(site, n);
      ServedIffOk(old(tables), site, sites, c);
      if !ok {
        return Some(HostTaken);
      }
      NextDispatches(old(tables), tables, site, sites, c);
      NextTLS(site, sites, c);
    }
  }

  /** Another site claims one of the site's patterns on the same listener. */
  ghost predicate Clashes(site: SiteConfig, sites: seq<SiteConfig>, c: Context) {
    exists i, l, p :: 0 <= i < |sites| && Claims(sites[i], c, l, p) && Claims(site, c, l, p)
  }

  lemma ServedIffOk(before: Tables, site: SiteConfig, sites: seq<SiteConfig>, c: Context)
    requires Dispatches(before, sites, c)
    requires site.hosts != [] && Routes.RoutesOk(site, c.policies, c.mux)
    requires forall p | p in Patterns(site) :: ValidPattern(p, c.isIP)
    requires forall l | l in Served(site, c) :: l in c.specs
    ensures (Unclaimed(before, site, |Served(site, c)|, c) && Covered(site, |Served(site, c)|, c)
             && Distinct(Patterns(site)))
            <==> SiteOk(site, c) && !Clashes(site, sites, c)
  {
    var served := Served(site, c);
    assert served[..|served|] == served;
    forall l, p | Claims(site, c, l, p)
      ensures Get(before[l], p).Some? <==> exists i :: 0 <= i < |sites| && Claims(sites[i], c, l, p)
    {
      assert Owner(Get(before[l], p), sites, c, l, p);
    }
  }

  lemma NextDispatches(before: Tables, after: Tables, site: SiteConfig, sites: seq<SiteConfig>, c: Context)
    requires Dispatches(before, sites, c)
    requires EnteredUpTo(before, after, site, |sites|, |Served(site, c)|, c)
    requires Unclaimed(before, site, |Served(site, c)|, c)
    ensures Dispatches(after, sites + [site], c)
  {
    var served, more := Served(site, c), sites + [site];
    assert served[..|served|] == served;
    forall l, p | l in after
      ensures Owner(Get(after[l], p), more, c, l, p)
    {
      assert Owner(Get(before[l], p), sites, c, l, p);
      assert Get(after[l], p) == EntryAfter(site, |sites|, |served|, c, l, p, Get(before[l], p));
      NextOwner(Get(before[l], p), Get(after[l], p), site, sites, c, l, p);
    }
  }

  lemma NextOwner(before: Option<SiteEntry>, after: Option<SiteEntry>, site: SiteConfig, sites: seq<SiteConfig>,
                  c: Context, l: string, p: string)
    requires Owner(before, sites, c, l, p)
    requires after == if Claims(site, c, l, p) then Some(SiteEntry(|sites|, Redirects(site, l, c))) else before
    requires Claims(site, c, l, p) ==> before.None?
    ensures Owner(after, sites + [site], c, l, p)
  {
    hide Claims, Redirects;
    var more := sites + [site];
    assert forall i | 0 <= i < |sites| :: more[i] == sites[i];
    assert more[|sites|] == site;
  }

  lemma NextTLS(site: SiteConfig, sites: seq<SiteConfig>, c: Context)
    ensures forall p :: ServedOverTLS(sites + [site], c, p) <==>
              ServedOverTLS(sites, c, p) || (p in Patterns(site) && AnyTLS(Served(site, c), c))
  {
    var more := sites + [site];
    forall p
      ensures ServedOverTLS(more, c, p) <==>
              ServedOverTLS(sites, c, p) || (p in Patterns(site) && AnyTLS(Served(site, c), c))
    {
      if ServedOverTLS(sites, c, p) {
        var i, l :| 0 <= i < |sites| && l in c.specs && c.specs[l].tls && Claims(sites[i], c, l, p);
        assert more[i] == sites[i];
      }
      if p in Patterns(site) && AnyTLS(Served(site, c), c) {
        var l :| l in Served(site, c) && l in c.specs && c.specs[l].tls;
        assert Claims(more[|sites|], c, l, p);
      }
    }
  }
}
