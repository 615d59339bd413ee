/** Compiling the routes of a site (compile.go:225-252, compile.go:339-378). */
module Routes {
  import opened Wrappers
  import opened Hosts
  import opened Snapshots

  /** ASCII only. */
  function Upper(s: string): string {
    if s == "" then ""
    else [if 'a' <= s[0] <= 'z' then s[0] - 'a' + 'A' else s[0]] + Upper(s[1..])
  }

  function Path(r: RouteConfig): string {
    if r.path == "" then "/" else r.path
  }

  function Pattern(r: RouteConfig): string {
    var verb := Upper(TrimRight(TrimLeft(r.verb)));
    if verb != "" then verb + " " + Path(r) else Path(r)
  }

  function RouteName(r: RouteConfig): string {
    if r.name == "" then Pattern(r) else r.name
  }

  /** A method as it should be written goes in front of the path, which is "/" unless given; a name wins over both. */
  lemma PatternMeans(r: RouteConfig)
    requires r.verb != "" ==> !IsSpace(r.verb[0]) && !IsSpace(r.verb[|r.verb| - 1])
    requires forall c | c in r.verb :: !('a' <= c <= 'z')
    ensures
      var path := if r.path == "" then "/" else r.path;
      Pattern(r) == if r.verb == "" then path else r.verb + " " + path
    ensures RouteName(r) == if r.name == "" then Pattern(r) else r.name
  {
    UpperIsSame(r.verb);
    assert TrimRight(TrimLeft(r.verb)) == r.verb;
    hide Upper, TrimLeft, TrimRight, IsSpace;
  }

  lemma UpperIsSame(a: string)
    requires forall c | c in a :: !('a' <= c <= 'z')
    ensures Upper(a) == a
  {
    UpperAt(a);
    hide Upper;
    assert forall i | 0 <= i < |a| :: a[i] in a;
  }

  /** Case and spaces around a method make no difference. */
  lemma PatternIgnores(r: RouteConfig, verb: string)
    ensures Upper(verb) == Upper(r.verb) ==> Pattern(r.(verb := verb)) == Pattern(r)
    ensures Pattern(r.(verb := " " + r.verb)) == Pattern(r) == Pattern(r.(verb := r.verb + " "))
  {
    hide Upper;
    UpperTrims(verb);
    UpperTrims(r.verb);
    assert (" " + r.verb)[1..] == r.verb && (r.verb + " ")[..|r.verb|] == r.verb;
    TrimFirst(" " + r.verb);
    TrimLast(r.verb + " ");
  }

  lemma {:induction false} UpperAt(a: string)
    ensures |Upper(a)| == |a|
    ensures forall i | 0 <= i < |a| :: Upper(a)[i] == if 'a' <= a[i] <= 'z' then a[i] - 'a' + 'A' else a[i]
  {
    if a != "" {
      UpperAt(a[1..]);
    }
  }

  lemma UpperTrims(a: string)
    ensures Upper(TrimRight(TrimLeft(a))) == TrimRight(TrimLeft(Upper(a)))
  {
    UpperTrimsLeft(a);
    UpperTrimsRight(TrimLeft(a));
  }

  lemma {:induction false} UpperTrimsLeft(a: string)
    ensures Upper(TrimLeft(a)) == TrimLeft(Upper(a))
  {
    if a != "" {
      UpperTrimsLeft(a[1..]);
    }
  }

  lemma {:induction false} UpperTrimsRight(a: string)
    ensures Upper(TrimRight(a)) == TrimRight(Upper(a))
  {
    UpperAt(a);
    if a != "" {
      var n := |a| - 1;
      UpperTrimsRight(a[..n]);
      UpperAt(a[..n]);
      assert Upper(a)[..n] == Upper(a[..n]);
    }
  }

  /** The routes of a site: those it lists, or one on "/" for its single handler. */
  function RoutesOf(site: SiteConfig): seq<RouteConfig> {
    if site.single.Some? then [RouteConfig("", "", "", [], site.single.value)] else site.routes
  }

  function PatternsOf(routes: seq<RouteConfig>): (patterns: seq<string>)
    ensures |patterns| == |routes| && forall i | 0 <= i < |routes| :: patterns[i] == Pattern(routes[i])
  {
    seq(|routes|, i requires 0 <= i < |routes| => Pattern(routes[i]))
  }

  predicate Declared(names: seq<string>, policies: set<string>) {
    forall n | n in names :: n in policies
  }

  predicate RouteOk(r: RouteConfig, policies: set<string>) {
    "/" <= Path(r) && r.handler && Declared(r.policies, policies)
  }

  /** Route j compiles, and the mux takes its pattern after those before. */
  predicate Fits(routes: seq<RouteConfig>, patterns: seq<string>, j: nat, policies: set<string>,
                 mux: seq<string> -> bool) {
    j < |routes| && j < |patterns| && RouteOk(routes[j], policies) && mux(patterns[..j + 1])
  }

  /** Each route compiles, their names differ, and the mux takes one after the other. */
  ghost predicate TableOk(routes: seq<RouteConfig>, policies: set<string>, mux: seq<string> -> bool) {
    && (forall i | 0 <= i < |routes| :: Fits(routes, PatternsOf(routes), i, policies, mux))
    && forall i, j | 0 <= i < j < |routes| :: RouteName(routes[i]) != RouteName(routes[j])
  }

  /** The site has routes or a handler but not both, and they and its policies compile. */
  ghost predicate RoutesOk(site: SiteConfig, policies: set<string>, mux: seq<string> -> bool) {
    && site.extensions && !(site.single.Some? && site.routes != []) && RoutesOf(site) != []
    && TableOk(RoutesOf(site), policies, mux) && Declared(site.policies, policies)
  }

  method CheckKnown(names: seq<string>, policies: set<string>) returns (ok: bool)
    ensures ok <==> Declared(names, policies)
  {
    for i := |names| downto 0
      invariant Declared(names[i..], policies)
    {
      if names[i] !in policies {
        assert names[i] in names;
        return false;
      }
      assert names[i..] == [names[i]] + names[i + 1..];
    }
    assert names[0..] == names;
    return true;
  }

  method CompileRoute(r: RouteConfig, policies: set<string>)
    returns (pattern: string, name: string, error: Option<Error>)
    ensures error.None? <==> RouteOk(r, policies)
    ensures error.None? ==> pattern == Pattern(r) && name == RouteName(r)
  {
    var path := if r.path == "" then "/" else r.path;
    pattern := path;
    var verb := Upper(TrimRight(TrimLeft(r.verb)));
    if verb != "" {
      pattern := verb + " " + path;
    }
    name := r.name;
    if name == "" {
      name := pattern;
    }
    if !("/" <= path) {
      return pattern, name, Some(BadPath);
    }
    if !r.handler {
      return pattern, name, Some(BadHandler);
    }
    var known := CheckKnown(r.policies, policies);
    return pattern, name, if known then None else Some(UnknownPolicy);
  }

  method CompileRoutes(site: SiteConfig, policies: set<string>, mux: seq<string> -> bool) returns (error: Option<Error>)
    ensures error.None? <==> RoutesOk(site, policies, mux)
  {
    if !site.extensions {
      return Some(BadExtensions);
    }
    var routes := site.routes;
    if site.single.Some? {
      if |routes| > 0 {
        return Some(RoutesAndHandler);
      }
      routes := [RouteConfig("", "", "", [], site.single.value)];
    }
    if |routes| == 0 {
      return Some(NoRoutes);
    }
    error := CompileTable(routes, policies, mux);
    if error.Some? {
      return;
    }
    var known := CheckKnown(site.policies, policies);
    return if known then None else Some(UnknownPolicy);
  }

  method CompileTable(routes: seq<RouteConfig>, policies: set<string>, mux: seq<string> -> bool)
    returns (error: Option<Error>)
    ensures error.None? <==> TableOk(routes, policies, mux)
  {
    hide RouteOk, Pattern, RouteName;
    ghost var all := PatternsOf(routes);
    var names: set<string> := {};
    var patterns: seq<string> := [];
    for i := 0 to |routes|
      invariant patterns == all[..i]
      invariant names == set j | 0 <= j < i :: RouteName(routes[j])
      invariant forall j | 0 <= j < i :: Fits(routes, all, j, policies, mux)
      invariant forall j, k | 0 <= j < k < i :: RouteName(routes[j]) != RouteName(routes[k])
    {
      var pattern, name, failure := CompileRoute(routes[i], policies);
      if failure.Some? {
        assert !Fits(routes, all, i, policies, mux);
        return failure;
      }
      if name in names {
        return Some(DuplicateRoute);
      }
      names := names + {name};
      patterns := patterns + [pattern];
      assert patterns == all[..i + 1];
      if !mux(patterns) {
        assert !Fits(routes, all, i, policies, mux);
        return Some(BadPattern);
      }
    }
    return None;
  }
}
