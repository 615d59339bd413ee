/** What a compiled configuration does with a request: dispatch by host, then policies (compile.go:62-143). */
module Serving {
  import opened Wrappers
  import opened Hosts
  import opened Certificates
  import opened Snapshots
  import opened Sites
  import opened Compile
  import Routes
  import Policies
  import Handlers

  // ----- The handlers of a configuration -----

  /** The policies that each route names. */
  function RoutePlans(routes: seq<RouteConfig>): map<string, seq<string>> {
    if routes == [] then map[]
    else
      var last := routes[|routes| - 1];
      RoutePlans(routes[..|routes| - 1])[Routes.RouteName(last) := last.policies]
  }

  function PlanOf(site: SiteConfig, l: string, c: Context): Handlers.Plan {
    if Redirects(site, l, c) then Handlers.Redirect
    else Handlers.Routes(site.policies, RoutePlans(Routes.RoutesOf(site)))
  }

  /** The sites behind a listener, by ID. */
  function PlansOn(sites: seq<SiteConfig>, c: Context, l: string): map<string, Handlers.Plan> {
    if sites == [] then map[]
    else
      var last := sites[|sites| - 1];
      var rest := PlansOn(sites[..|sites| - 1], c, l);
      if l in Served(last, c) then rest[SiteID(last) := PlanOf(last, l, c)] else rest
  }

  lemma {:induction false} RoutePlansKnown(routes: seq<RouteConfig>, policies: Policies.PolicyTable)
    requires forall i | 0 <= i < |routes| :: Routes.Declared(routes[i].policies, policies.Keys)
    ensures forall k | k in RoutePlans(routes) :: Handlers.Known(RoutePlans(routes)[k], policies)
  {
    hide Routes.RouteName;
    if routes != [] {
      RoutePlansKnown(routes[..|routes| - 1], policies);
    }
  }

  lemma PlanIsKnown(site: SiteConfig, l: string, c: Context, policies: Policies.PolicyTable)
    requires SiteOk(site, c) && policies.Keys == c.policies
    ensures Handlers.PlanKnown(PlanOf(site, l, c), policies)
  {
    hide RoutePlans, Claims, Routes.RouteName, Redirects;
    var routes := Routes.RoutesOf(site);
    forall i | 0 <= i < |routes|
      ensures Routes.Declared(routes[i].policies, policies.Keys)
    {
      assert Routes.Fits(routes, Routes.PatternsOf(routes), i, c.policies, c.mux);
    }
    RoutePlansKnown(routes, policies);
  }

  lemma {:induction false} PlansAreKnown(sites: seq<SiteConfig>, c: Context, l: string, policies: Policies.PolicyTable)
    requires (forall i | 0 <= i < |sites| :: SiteOk(sites[i], c)) && policies.Keys == c.policies
    ensures forall s | s in PlansOn(sites, c, l) :: Handlers.PlanKnown(PlansOn(sites, c, l)[s], policies)
  {
    hide SiteOk, SiteID, Served, Handlers.PlanKnown;
    if sites != [] {
      var n := |sites| - 1;
      PlansAreKnown(sites[..n], c, l, policies);
      PlanIsKnown(sites[n], l, c, policies);
    }
  }

  /** What compiling accepts names no policy that is not compiled, on any listener. */
  lemma AcceptedNamesAreKnown(config: Config, world: World, prev: Option<Snapshot>, certs: Store, snap: Snapshot,
                              k: nat)
    requires Accepts(config, world, prev, certs)
    requires snap.config == config && snap.certs == certs && snap.acme == ManagerFor(config.acme, world, prev).value
    requires IsSnapshot(snap, ContextFor(config, certs, snap.acme, world))
    requires k < |Listeners(config, certs, snap.acme)|
    ensures
      var l, c := Listeners(config, certs, snap.acme)[k], ContextFor(config, certs, snap.acme, world);
      Handlers.AllKnown(l.policies, PlansOn(config.sites, c, l.name), snap.policies)
  {
    hide SiteOk, Compatible, Dispatches, ManagerFor, ListenersOk, PlansOn, Handlers.PlanKnown;
    var l, c := Listeners(config, certs, snap.acme)[k], ContextFor(config, certs, snap.acme, world);
    assert Routes.Declared(l.policies, c.policies);
    PlansAreKnown(config.sites, c, l.name, snap.policies);
  }

  // ----- The site that answers -----

  lemma {:induction false} PlansAreOfSites(sites: seq<SiteConfig>, c: Context, l: string)
    ensures forall s | s in PlansOn(sites, c, l) :: exists i :: 0 <= i < |sites| && SiteID(sites[i]) == s
  {
    hide SiteID, Served, PlanOf;
    if sites != [] {
      var n := |sites| - 1;
      PlansAreOfSites(sites[..n], c, l);
      forall s | s in PlansOn(sites, c, l)
        ensures exists i :: 0 <= i < |sites| && SiteID(sites[i]) == s
      {
        if s in PlansOn(sites[..n], c, l) {
          var i :| 0 <= i < n && SiteID(sites[..n][i]) == s;
          assert sites[i] == sites[..n][i];
        } else {
          assert SiteID(sites[n]) == s;
        }
      }
    }
  }

  /** With different IDs, each site behind the listener has its own plan there. */
  lemma {:induction false} PlanOfSite(sites: seq<SiteConfig>, c: Context, l: string, i: nat)
    requires forall a, b | 0 <= a < b < |sites| :: SiteID(sites[a]) != SiteID(sites[b])
    requires i < |sites| && l in Served(sites[i], c)
    ensures SiteID(sites[i]) in PlansOn(sites, c, l)
    ensures PlansOn(sites, c, l)[SiteID(sites[i])] == PlanOf(sites[i], l, c)
  {
    hide SiteID, Served, PlanOf;
    var n := |sites| - 1;
    if i < n {
      assert SiteID(sites[i]) != SiteID(sites[n]);
      assert sites[..n][i] == sites[i];
      PlanOfSite(sites[..n], c, l, i);
    }
  }

  /** The request as the listener's table of hosts dispatches it. */
  function Dispatched(entry: Option<SiteEntry>, sites: seq<SiteConfig>, route: string,
                      rejects: Policies.Middleware -> bool): Handlers.Request {
    Handlers.Request(if entry.Some? && entry.value.site < |sites| then SiteID(sites[entry.value.site]) else "",
                     route, rejects)
  }

  /** The policies that listener, site and route name for it, outermost first. */
  function Asking(l: ListenerConfig, entry: Option<SiteEntry>, sites: seq<SiteConfig>, route: string): seq<string> {
    l.policies +
    if entry.None? || entry.value.redirect || entry.value.site >= |sites| then []
    else
      var site := sites[entry.value.site];
      var routes := RoutePlans(Routes.RoutesOf(site));
      site.policies + if route in routes then routes[route] else []
  }

  /** Where it ends up unless a policy turns it away. */
  function Destination(entry: Option<SiteEntry>, sites: seq<SiteConfig>, route: string): Handlers.Outcome {
    if entry.None? || entry.value.site >= |sites| then Handlers.NotFound
    else if entry.value.redirect then Handlers.Reached("https-redirect")
    else if route in RoutePlans(Routes.RoutesOf(sites[entry.value.site])) then Handlers.Reached(route)
    else Handlers.NotFound
  }

  /** The entry agrees with the plans, or there is neither. */
  lemma EntryIsPlanned(snap: Snapshot, c: Context, l: string, host: string)
    requires IsSnapshot(snap, c) && l in snap.listeners && l in snap.tables
    ensures
      match Match(snap.tables[l], host)
      case None => "" !in PlansOn(snap.config.sites, c, l)
      case Some(e) =>
        && (exists k :: AnsweredBy(e, k, snap.config.sites, c, l, host)) && e.site < |snap.config.sites|
        && SiteID(snap.config.sites[e.site]) in PlansOn(snap.config.sites, c, l)
        && PlansOn(snap.config.sites, c, l)[SiteID(snap.config.sites[e.site])]
           == PlanOf(snap.config.sites[e.site], l, c)
        && e.redirect == Redirects(snap.config.sites[e.site], l, c)
  {
    hide SiteOk, SiteID, PlanOf, Redirects, Served, Dispatches, Candidates, Match, PlansOn;
    var sites := snap.config.sites;
    DispatchPicksMostSpecific(snap, c, l, host);
    if Match(snap.tables[l], host).Some? {
      var e := Match(snap.tables[l], host).value;
      var k :| AnsweredBy(e, k, sites, c, l, host);
      PlanOfSite(sites, c, l, e.site);
    } else {
      NoSiteWithoutID(sites, c, l);
    }
  }

  lemma NoSiteWithoutID(sites: seq<SiteConfig>, c: Context, l: string)
    requires forall i | 0 <= i < |sites| :: SiteOk(sites[i], c)
    ensures "" !in PlansOn(sites, c, l)
  {
    hide SiteOk, SiteID, PlansOn;
    PlansAreOfSites(sites, c, l);
    forall i | 0 <= i < |sites|
      ensures SiteID(sites[i]) != ""
    {
      SiteOkHasID(sites[i], c);
    }
  }

  lemma {:induction false} RoutePlansIff(routes: seq<RouteConfig>, k: nat, name: string)
    requires forall i, j | 0 <= i < j < |routes| :: Routes.RouteName(routes[i]) != Routes.RouteName(routes[j])
    ensures name in RoutePlans(routes) <==> exists i :: 0 <= i < |routes| && Routes.RouteName(routes[i]) == name
    ensures k < |routes| ==>
              && Routes.RouteName(routes[k]) in RoutePlans(routes)
              && RoutePlans(routes)[Routes.RouteName(routes[k])] == routes[k].policies
  {
    hide Routes.RouteName;
    if routes != [] {
      var n := |routes| - 1;
      assert routes == routes[..n] + [routes[n]];
      RoutePlansIff(routes[..n], if k < n then k else 0, name);
    }
  }

  /** Which policies a request for a site and one of its routes meets, and where it goes. */
  lemma AskingMeans(l: ListenerConfig, entry: Option<SiteEntry>, sites: seq<SiteConfig>, c: Context, route: string,
                    k: nat)
    requires forall i | 0 <= i < |sites| :: SiteOk(sites[i], c)
    requires entry.Some? ==> entry.value.site < |sites|
    ensures entry.None? ==> Asking(l, entry, sites, route) == l.policies
    ensures entry.None? ==> Destination(entry, sites, route) == Handlers.NotFound
    ensures entry.Some? && entry.value.redirect ==> Asking(l, entry, sites, route) == l.policies
    ensures entry.Some? && entry.value.redirect ==>
              Destination(entry, sites, route) == Handlers.Reached("https-redirect")
    ensures entry.Some? && !entry.value.redirect ==>
              var site := sites[entry.value.site];
              && (k < |site.routes| && Routes.RouteName(site.routes[k]) == route ==>
                    && Asking(l, entry, sites, route) == l.policies + (site.policies + site.routes[k].policies)
                    && Destination(entry, sites, route) == Handlers.Reached(route))
              && (site.routes == [] && route == "/" ==>
                    && Asking(l, entry, sites, route) == l.policies + site.policies
                    && Destination(entry, sites, route) == Handlers.Reached(route))
              && ((forall i | 0 <= i < |site.routes| :: Routes.RouteName(site.routes[i]) != route)
                  && (site.routes == [] ==> route != "/") ==>
                    && Asking(l, entry, sites, route) == l.policies + site.policies
                    && Destination(entry, sites, route) == Handlers.NotFound)
  {
    hide RoutePlans, Claims, Routes.Pattern;
    if entry.Some? && !entry.value.redirect {
      var site := sites[entry.value.site];
      assert SiteOk(site, c);
      var routes := Routes.RoutesOf(site);
      RoutePlansIff(routes, k, route);
      if site.routes == [] {
        assert Routes.RouteName(routes[0]) == "/" by { SingleIsRoot(routes[0]); }
        RoutePlansIff(routes, 0, route);
      }
    }
    assert forall s: seq<string> :: s + [] == s;
  }

  lemma SingleIsRoot(r: RouteConfig)
    requires r.name == "" && r.verb == "" && r.path == ""
    ensures Routes.RouteName(r) == "/"
  {
    Routes.PatternMeans(r);
  }

  lemma AskingIsNamed(l: ListenerConfig, entry: Option<SiteEntry>, sites: seq<SiteConfig>, route: string,
                      rejects: Policies.Middleware -> bool, plans: map<string, Handlers.Plan>, c: Context)
    requires entry.None? ==> "" !in plans
    requires entry.Some? ==>
               && entry.value.site < |sites| && SiteID(sites[entry.value.site]) in plans
               && plans[SiteID(sites[entry.value.site])] == PlanOf(sites[entry.value.site], l.name, c)
               && entry.value.redirect == Redirects(sites[entry.value.site], l.name, c)
    ensures
      var r := Dispatched(entry, sites, route, rejects);
      && Handlers.Named(l.policies, plans, r) == Asking(l, entry, sites, route)
      && Handlers.Target(plans, r) == Destination(entry, sites, route)
  {
    hide Redirects, SiteID, RoutePlans;
  }

  /**
   Every accepted configuration serves like this: the site that claims the most specific pattern for the host
   answers, and the first occurrences of the policies of listener, site and route run, in that order, up to the
   first that turns the request away.
   */
  lemma ServedAsConfigured(config: Config, world: World, prev: Option<Snapshot>, certs: Store, snap: Snapshot,
                           first: nat, next: nat, k: nat, host: string, route: string,
                           rejects: Policies.Middleware -> bool)
    requires Accepts(config, world, prev, certs)
    requires snap.config == config && snap.certs == certs && snap.acme == ManagerFor(config.acme, world, prev).value
    requires IsSnapshot(snap, ContextFor(config, certs, snap.acme, world))
    requires HasPolicies(snap, config, prev, first, next) && k < |Listeners(config, certs, snap.acme)|
    ensures
      var l, c := Listeners(config, certs, snap.acme)[k], ContextFor(config, certs, snap.acme, world);
      var plans := PlansOn(config.sites, c, l.name);
      && l.name in snap.tables && Handlers.AllKnown(l.policies, plans, snap.policies)
      && var entry := Match(snap.tables[l.name], host);
         var r, names := Dispatched(entry, config.sites, route, rejects), Asking(l, entry, config.sites, route);
         && (entry.Some? ==> exists j :: AnsweredBy(entry.value, j, config.sites, c, l.name, host))
         && (forall n | n in Handlers.Firsts(names) :: n in snap.policies)
         && var guards := Handlers.Guards(Handlers.Firsts(names), snap.policies);
            var run := Handlers.Serve(Handlers.ListenerHandler(l.policies, plans, snap.policies), {}, r);
            && Handlers.AllDifferent(guards) && run.trace == Handlers.Cut(guards, r)
            && run.outcome == if Handlers.Verdict(guards, r).Some?
                              then Handlers.Rejected(Handlers.Verdict(guards, r).value)
                              else Destination(entry, config.sites, route)
  {
    var l, c := Listeners(config, certs, snap.acme)[k], ContextFor(config, certs, snap.acme, world);
    AcceptedNamesAreKnown(config, world, prev, certs, snap, k);
    ListenerIsBound(config, world, prev, certs, snap, k);
    ListenerServes(snap, c, l, next, host, route, rejects);
  }

  lemma ListenerIsBound(config: Config, world: World, prev: Option<Snapshot>, certs: Store, snap: Snapshot, k: nat)
    requires Accepts(config, world, prev, certs) && snap.acme == ManagerFor(config.acme, world, prev).value
    requires IsSnapshot(snap, ContextFor(config, certs, snap.acme, world))
    requires k < |Listeners(config, certs, snap.acme)|
    ensures Listeners(config, certs, snap.acme)[k].name in snap.listeners
    ensures snap.tables.Keys == snap.listeners.Keys
  {
    hide SitesOk, SpecMap, ManagerFor, Listeners, ListenersOk, PoliciesKnown;
    SpecMapHolds(Listeners(config, certs, snap.acme), config.minTLS.value, config.server);
  }

  lemma ListenerServes(snap: Snapshot, c: Context, l: ListenerConfig, bound: nat, host: string, route: string,
                       rejects: Policies.Middleware -> bool)
    requires IsSnapshot(snap, c) && l.name in snap.listeners && l.name in snap.tables
    requires Policies.SoundTable(snap.policies, bound)
    requires Handlers.AllKnown(l.policies, PlansOn(snap.config.sites, c, l.name), snap.policies)
    ensures
      var sites, entry := snap.config.sites, Match(snap.tables[l.name], host);
      var r, names := Dispatched(entry, sites, route, rejects), Asking(l, entry, sites, route);
      && (entry.Some? ==> exists j :: AnsweredBy(entry.value, j, sites, c, l.name, host))
      && (forall n | n in Handlers.Firsts(names) :: n in snap.policies)
      && var guards := Handlers.Guards(Handlers.Firsts(names), snap.policies);
         var run := Handlers.Serve(
                      Handlers.ListenerHandler(l.policies, PlansOn(sites, c, l.name), snap.policies), {}, r);
         && Handlers.AllDifferent(guards) && run.trace == Handlers.Cut(guards, r)
         && run.outcome == if Handlers.Verdict(guards, r).Some?
                           then Handlers.Rejected(Handlers.Verdict(guards, r).value)
                           else Destination(entry, sites, route)
  {
    hide IsSnapshot, PlansOn, Policies.SoundTable, Handlers.AllKnown, Handlers.Serve, Handlers.Guards, AnsweredBy;
    hide Handlers.Firsts, Handlers.Cut, Handlers.Verdict, Handlers.Named, Handlers.Target, Asking, Destination;
    hide Dispatched, Match, Handlers.AllDifferent;
    var sites, entry := snap.config.sites, Match(snap.tables[l.name], host);
    var plans, r := PlansOn(sites, c, l.name), Dispatched(entry, sites, route, rejects);
    EntryIsPlanned(snap, c, l.name, host);
    AskingIsNamed(l, entry, sites, route, rejects, plans, c);
    Handlers.PoliciesThatRun(l.policies, plans, snap.policies, bound, r);
    Handlers.FirstsDiffer(Handlers.Named(l.policies, plans, r));
    Handlers.GuardsDiffer(Handlers.Firsts(Handlers.Named(l.policies, plans, r)), snap.policies, bound);
  }
}
