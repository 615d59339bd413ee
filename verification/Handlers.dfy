/** Which policies run for a request, whichever scopes name them (policy.go:89-114, middleware.go:12-43). */
module Handlers {
  import opened Wrappers
  import opened Policies

  /** An HTTP handler: the closures that the source builds, as data. */
  datatype Handler =
    | Endpoint(name: string)
    | Guarded(guard: Middleware, next: Handler)
    | Once(policy: string, wrapped: Handler, next: Handler)
    | Hosts(sites: map<string, Handler>)
    | Mux(routes: map<string, Handler>)

  /** The site and route that a request is for, and which middleware would turn it away. */
  datatype Request = Request(site: string, route: string, rejects: Middleware -> bool)

  datatype Outcome = Reached(name: string) | NotFound | Rejected(guard: Middleware)

  datatype Run = Run(trace: seq<Middleware>, outcome: Outcome, applied: set<string>)

  // ----- Serving -----

  /** The middleware that runs, in order, and where the request ends up. */
  function Serve(h: Handler, applied: set<string>, r: Request): Run {
    match h
    case Endpoint(name) => Run([], Reached(name), applied)
    case Guarded(guard, next) =>
      if r.rejects(guard) then Run([guard], Rejected(guard), applied)
      else After([guard], Serve(next, applied, r))
    case Once(policy, wrapped, next) =>
      if policy in applied then Serve(next, applied, r) else Serve(wrapped, applied + {policy}, r)
    case Hosts(sites) =>
      if r.site in sites then Serve(sites[r.site], applied, r) else Run([], NotFound, applied)
    case Mux(routes) =>
      if r.route in routes then Serve(routes[r.route], applied, r) else Run([], NotFound, applied)
  }

  function After(guards: seq<Middleware>, run: Run): Run {
    run.(trace := guards + run.trace)
  }

  /** Per-request state: the policies that have run. */
  class RequestState {
    var applied: set<string>

    constructor ()
      ensures applied == {}
    {
      applied := {};
    }

    method MarkApplied(policy: string) returns (isNew: bool)
      modifies this
      ensures isNew == (policy !in old(applied)) && applied == old(applied) + {policy}
    {
      if policy in applied {
        return false;
      }
      applied := applied + {policy};
      return true;
    }

    /** Serving a request through the closures, with the state they share. */
    method ServeHTTP(h: Handler, r: Request) returns (trace: seq<Middleware>, outcome: Outcome)
      modifies this
      ensures Run(trace, outcome, applied) == Serve(h, old(applied), r)
      decreases h
    {
      match h
      case Endpoint(name) =>
        return [], Reached(name);
      case Guarded(guard, next) =>
        if r.rejects(guard) {
          return [guard], Rejected(guard);
        }
        trace, outcome := ServeHTTP(next, r);
        trace := [guard] + trace;
      case Once(policy, wrapped, next) =>
        var isNew := MarkApplied(policy);
        if !isNew {
          assert applied == old(applied);
          trace, outcome := ServeHTTP(next, r);
          return;
        }
        trace, outcome := ServeHTTP(wrapped, r);
      case Hosts(sites) =>
        if r.site in sites {
          trace, outcome := ServeHTTP(sites[r.site], r);
        } else {
          return [], NotFound;
        }
      case Mux(routes) =>
        if r.route in routes {
          trace, outcome := ServeHTTP(routes[r.route], r);
        } else {
          return [], NotFound;
        }
    }
  }

  // ----- Building -----

  function Chained(h: Handler, middleware: seq<Middleware>): Handler
    decreases |middleware|
  {
    if middleware == [] then h else Guarded(middleware[0], Chained(h, middleware[1..]))
  }

  method Chain(h: Handler, middleware: seq<Middleware>) returns (handler: Handler)
    ensures handler == Chained(h, middleware)
  {
    handler := h;
    for i := |middleware| downto 0
      invariant handler == Chained(h, middleware[i..])
    {
      assert middleware[i..][1..] == middleware[i + 1..];
      handler := Guarded(middleware[i], handler);
    }
  }

  function Wrapped(p: Compiled, next: Handler): Handler {
    Once(p.definition.name, Chained(next, p.middleware), next)
  }

  predicate Known(names: seq<string>, policies: PolicyTable) {
    forall i | 0 <= i < |names| :: names[i] in policies
  }

  function Policed(h: Handler, names: seq<string>, policies: PolicyTable): Handler
    requires Known(names, policies)
    decreases |names|
  {
    if names == [] then h else Wrapped(policies[names[0]], Policed(h, names[1..], policies))
  }

  method Wrap(p: Compiled, next: Handler) returns (h: Handler)
    ensures h == Wrapped(p, next)
  {
    var wrapped := Chain(next, p.middleware);
    h := Once(p.definition.name, wrapped, next);
  }

  method ApplyPolicies(h: Handler, names: seq<string>, policies: PolicyTable) returns (r: Result<Handler, PolicyError>)
    ensures r.Ok? <==> Known(names, policies)
    ensures r.Ok? ==> r.value == Policed(h, names, policies)
    ensures r.Err? ==> exists i :: 0 <= i < |names| && names[i] !in policies && r.error == UnknownPolicy(names[i])
  {
    hide Wrapped;
    var handler := h;
    for i := |names| downto 0
      invariant Known(names[i..], policies)
      invariant handler == Policed(h, names[i..], policies)
    {
      if names[i] !in policies {
        return Err(UnknownPolicy(names[i]));
      }
      assert names[i..][1..] == names[i + 1..];
      handler := Wrap(policies[names[i]], handler);
    }
    assert names[0..] == names;
    r := Ok(handler);
  }

  /** The policies a site and its routes name, or the redirect that replaces the site on a plain listener. */
  datatype Plan = Redirect | Routes(policies: seq<string>, routes: map<string, seq<string>>)

  predicate PlanKnown(p: Plan, policies: PolicyTable) {
    p.Routes? ==> Known(p.policies, policies) && forall k | k in p.routes :: Known(p.routes[k], policies)
  }

  predicate AllKnown(listener: seq<string>, sites: map<string, Plan>, policies: PolicyTable) {
    Known(listener, policies) && forall s | s in sites :: PlanKnown(sites[s], policies)
  }

  function RouteHandlers(routes: map<string, seq<string>>, policies: PolicyTable): map<string, Handler>
    requires forall k | k in routes :: Known(routes[k], policies)
  {
    map k | k in routes :: Policed(Endpoint(k), routes[k], policies)
  }

  function SiteHandler(p: Plan, policies: PolicyTable): Handler
    requires PlanKnown(p, policies)
  {
    match p
    case Redirect => Endpoint("https-redirect")
    case Routes(names, routes) => Policed(Mux(RouteHandlers(routes, policies)), names, policies)
  }

  function ListenerHandler(listener: seq<string>, sites: map<string, Plan>, policies: PolicyTable): Handler
    requires AllKnown(listener, sites, policies)
  {
    Policed(Hosts(map s | s in sites :: SiteHandler(sites[s], policies)), listener, policies)
  }

  // ----- What runs -----

  /** Every policy named for the request, outermost scope first. */
  function Named(listener: seq<string>, sites: map<string, Plan>, r: Request): seq<string> {
    listener +
    if r.site !in sites || sites[r.site].Redirect? then []
    else sites[r.site].policies + if r.route in sites[r.site].routes then sites[r.site].routes[r.route] else []
  }

  function Target(sites: map<string, Plan>, r: Request): Outcome {
    if r.site !in sites then NotFound
    else if sites[r.site].Redirect? then Reached("https-redirect")
    else if r.route in sites[r.site].routes then Reached(r.route)
    else NotFound
  }

  /** The first occurrence of each name. */
  function Firsts(names: seq<string>): seq<string> {
    if names == [] then []
    else
      var n := |names| - 1;
      Firsts(names[..n]) + if names[n] in names[..n] then [] else [names[n]]
  }

  function Guards(names: seq<string>, policies: PolicyTable): seq<Middleware>
    requires forall n | n in names :: n in policies
  {
    if names == [] then [] else policies[names[0]].middleware + Guards(names[1..], policies)
  }

  /** Everything up to and including the first middleware that rejects. */
  function Cut(guards: seq<Middleware>, r: Request): seq<Middleware> {
    if guards == [] then []
    else [guards[0]] + if r.rejects(guards[0]) then [] else Cut(guards[1..], r)
  }

  function Verdict(guards: seq<Middleware>, r: Request): Option<Middleware> {
    if guards == [] then None
    else if r.rejects(guards[0]) then Some(guards[0])
    else Verdict(guards[1..], r)
  }

  /** `run` is what guards followed by `rest` do. */
  predicate Runs(run: Run, guards: seq<Middleware>, rest: Run, r: Request) {
    match Verdict(guards, r)
    case None => run == After(guards, rest)
    case Some(guard) => run.trace == Cut(guards, r) && run.outcome == Rejected(guard)
  }

  lemma {:induction false} CutPassed(guards: seq<Middleware>, r: Request)
    requires Verdict(guards, r).None?
    ensures Cut(guards, r) == guards
  {
    if guards != [] {
      CutPassed(guards[1..], r);
    }
  }

  /** Chained middleware runs in declaration order. */
  lemma {:induction false} ServeChained(h: Handler, middleware: seq<Middleware>, applied: set<string>, r: Request)
    ensures Runs(Serve(Chained(h, middleware), applied, r), middleware, Serve(h, applied, r), r)
    decreases |middleware|
  {
    if middleware != [] {
      ServeChained(h, middleware[1..], applied, r);
      assert middleware == [middleware[0]] + middleware[1..];
    }
  }

  /** Guards in two parts run one part after the other. */
  lemma RunsBoth(run: Run, a: seq<Middleware>, middle: Run, b: seq<Middleware>, rest: Run, r: Request)
    requires Runs(run, a, middle, r) && Runs(middle, b, rest, r)
    ensures Runs(run, a + b, rest, r)
  {
    hide Verdict, Cut;
    VerdictBoth(a, b, r);
    CutBoth(a, b, r);
    assert a + (b + rest.trace) == (a + b) + rest.trace;
  }

  lemma {:induction false} VerdictBoth(a: seq<Middleware>, b: seq<Middleware>, r: Request)
    ensures Verdict(a + b, r) == if Verdict(a, r).Some? then Verdict(a, r) else Verdict(b, r)
  {
    if a == [] {
      assert a + b == b;
    } else {
      VerdictBoth(a[1..], b, r);
      assert (a + b)[1..] == a[1..] + b;
    }
  }

  lemma {:induction false} CutBoth(a: seq<Middleware>, b: seq<Middleware>, r: Request)
    ensures Cut(a + b, r) == if Verdict(a, r).Some? then Cut(a, r) else a + Cut(b, r)
  {
    if a == [] {
      assert a + b == b;
    } else {
      var first, rest := a[0], a[1..];
      assert a == [first] + rest && (a + b)[0] == first && (a + b)[1..] == rest + b;
      assert Cut(a + b, r) == [first] + if r.rejects(first) then [] else Cut(rest + b, r);
      if !r.rejects(first) {
        CutBoth(rest, b, r);
        Rebracket(first, rest, Cut(b, r));
      }
    }
  }

  lemma Rebracket<T>(first: T, a: seq<T>, b: seq<T>)
    ensures [first] + (a + b) == ([first] + a) + b
  {
  }

  /** The names that are new to a request that has already run `applied`. */
  function NewNames(names: seq<string>, applied: set<string>): seq<string> {
    if names == [] then []
    else if names[0] in applied then NewNames(names[1..], applied)
    else [names[0]] + NewNames(names[1..], applied + {names[0]})
  }

  function NamesOf(names: seq<string>): set<string> {
    set n | n in names
  }

  lemma {:induction false} NewNamesAreNames(names: seq<string>, applied: set<string>)
    ensures forall n | n in NewNames(names, applied) :: n in names && n !in applied
  {
    if names != [] {
      NewNamesAreNames(names[1..], applied);
      NewNamesAreNames(names[1..], applied + {names[0]});
    }
  }

  /** One scope: the policies not yet applied run in order, then the handler inside. */
  lemma {:induction false} ServePoliced(h: Handler, names: seq<string>, policies: PolicyTable, bound: nat,
                                        applied: set<string>, r: Request)
    requires Known(names, policies) && SoundTable(policies, bound)
    ensures forall n | n in NewNames(names, applied) :: n in policies
    ensures Runs(Serve(Policed(h, names, policies), applied, r), Guards(NewNames(names, applied), policies),
                 Serve(h, applied + NamesOf(names), r), r)
    decreases |names|
  {
    hide Runs, MiddlewareOf, DefinitionOk;
    NewNamesAreNames(names, applied);
    if names == [] {
      assert applied + NamesOf(names) == applied;
      RunsNone(Serve(h, applied, r), r);
    } else {
      var inner := Policed(h, names[1..], policies);
      var now := applied + {names[0]};
      assert SoundPolicy(names[0], policies[names[0]], bound);
      if names[0] in applied {
        ServePoliced(h, names[1..], policies, bound, applied, r);
        assert applied + NamesOf(names) == applied + NamesOf(names[1..]);
      } else {
        ServePoliced(h, names[1..], policies, bound, now, r);
        assert applied + NamesOf(names) == now + NamesOf(names[1..]);
        var added := NewNames(names, applied);
        assert added[1..] == NewNames(names[1..], now);
        ServeChained(inner, policies[names[0]].middleware, now, r);
        RunsBoth(Serve(Policed(h, names, policies), applied, r), policies[names[0]].middleware,
                 Serve(inner, now, r), Guards(added[1..], policies), Serve(h, applied + NamesOf(names), r), r);
      }
    }
  }

  lemma RunsNone(run: Run, r: Request)
    ensures Runs(run, [], run, r)
  {
    assert [] + run.trace == run.trace;
  }

  lemma {:induction false} NewNamesAppend(a: seq<string>, b: seq<string>, applied: set<string>)
    ensures NewNames(a + b, applied) == NewNames(a, applied) + NewNames(b, applied + NamesOf(a))
    decreases |a|
  {
    if a == [] {
      assert a + b == b && applied + NamesOf(a) == applied;
    } else {
      assert (a + b)[0] == a[0] && (a + b)[1..] == a[1..] + b;
      var now := if a[0] in applied then applied else applied + {a[0]};
      NewNamesAppend(a[1..], b, now);
      assert now + NamesOf(a[1..]) == applied + NamesOf(a);
    }
  }

  lemma {:induction false} NewNamesAreFirsts(names: seq<string>)
    ensures NewNames(names, {}) == Firsts(names)
  {
    if names != [] {
      var n := |names| - 1;
      NewNamesAreFirsts(names[..n]);
      NewNamesAppend(names[..n], [names[n]], {});
      assert names == names[..n] + [names[n]];
      assert names[n] in {} + NamesOf(names[..n]) <==> names[n] in names[..n];
    }
  }

  lemma {:induction false} GuardsAppend(a: seq<string>, b: seq<string>, policies: PolicyTable)
    requires (forall n | n in a :: n in policies) && (forall n | n in b :: n in policies)
    ensures forall n | n in a + b :: n in policies
    ensures Guards(a + b, policies) == Guards(a, policies) + Guards(b, policies)
    decreases |a|
  {
    if a == [] {
      assert a + b == b;
    } else {
      assert (a + b)[0] == a[0] && (a + b)[1..] == a[1..] + b;
      GuardsAppend(a[1..], b, policies);
    }
  }

  /** Two scopes, one around the other, run like one scope with both lists of names. */
  lemma ScopesJoin(run: Run, a: seq<string>, middle: Run, b: seq<string>, rest: Run, policies: PolicyTable,
                   applied: set<string>, r: Request)
    requires Known(a, policies) && Known(b, policies)
    requires forall n | n in NewNames(a, applied) :: n in policies
    requires forall n | n in NewNames(b, applied + NamesOf(a)) :: n in policies
    requires Runs(run, Guards(NewNames(a, applied), policies), middle, r)
    requires Runs(middle, Guards(NewNames(b, applied + NamesOf(a)), policies), rest, r)
    ensures forall n | n in NewNames(a + b, applied) :: n in policies
    ensures Runs(run, Guards(NewNames(a + b, applied), policies), rest, r)
  {
    hide Runs;
    NewNamesAppend(a, b, applied);
    GuardsAppend(NewNames(a, applied), NewNames(b, applied + NamesOf(a)), policies);
    RunsBoth(run, Guards(NewNames(a, applied), policies), middle,
             Guards(NewNames(b, applied + NamesOf(a)), policies), rest, r);
  }

  lemma SiteRuns(p: Plan, policies: PolicyTable, bound: nat, applied: set<string>, r: Request) returns (rest: Run)
    requires PlanKnown(p, policies) && SoundTable(policies, bound)
    ensures
      var names := if p.Redirect? then [] else p.policies + if r.route in p.routes then p.routes[r.route] else [];
      && Known(names, policies) && (forall n | n in NewNames(names, applied) :: n in policies)
      && Runs(Serve(SiteHandler(p, policies), applied, r), Guards(NewNames(names, applied), policies), rest, r)
    ensures rest.trace == []
    ensures rest.outcome ==
            if p.Redirect? then Reached("https-redirect")
            else if r.route in p.routes then Reached(r.route)
            else NotFound
  {
    hide Runs, SoundTable;
    if p.Redirect? {
      rest := Serve(SiteHandler(p, policies), applied, r);
      RunsNone(rest, r);
    } else {
      var mux := Mux(RouteHandlers(p.routes, policies));
      var now := applied + NamesOf(p.policies);
      ServePoliced(mux, p.policies, policies, bound, applied, r);
      if r.route in p.routes {
        var names := p.routes[r.route];
        ServePoliced(Endpoint(r.route), names, policies, bound, now, r);
        rest := Serve(Endpoint(r.route), now + NamesOf(names), r);
        ScopesJoin(Serve(SiteHandler(p, policies), applied, r), p.policies, Serve(mux, now, r), names, rest,
                   policies, applied, r);
      } else {
        rest := Serve(mux, now, r);
        assert p.policies + [] == p.policies;
      }
    }
  }

  /**
   The policies that run for a request are the first occurrences of the names
   of its listener, site and route, in that order, up to the first rejection.
   A redirect runs the listener's only.
   */
  lemma PoliciesThatRun(listener: seq<string>, sites: map<string, Plan>, policies: PolicyTable, bound: nat, r: Request)
    requires AllKnown(listener, sites, policies) && SoundTable(policies, bound)
    ensures forall n | n in Firsts(Named(listener, sites, r)) :: n in policies
    ensures
      var guards := Guards(Firsts(Named(listener, sites, r)), policies);
      var run := Serve(ListenerHandler(listener, sites, policies), {}, r);
      && run.trace == Cut(guards, r)
      && run.outcome == if Verdict(guards, r).Some? then Rejected(Verdict(guards, r).value) else Target(sites, r)
  {
    hide SoundTable, SiteHandler, RouteHandlers;
    var hosts := Hosts(map s | s in sites :: SiteHandler(sites[s], policies));
    var names := Named(listener, sites, r);
    var now := {} + NamesOf(listener);
    ServePoliced(hosts, listener, policies, bound, {}, r);
    var rest := Serve(hosts, now, r);
    if r.site in sites {
      var inner := if sites[r.site].Redirect? then []
                   else
                     sites[r.site].policies
                     + if r.route in sites[r.site].routes then sites[r.site].routes[r.route] else [];
      rest := SiteRuns(sites[r.site], policies, bound, now, r);
      assert names == listener + inner;
      ScopesJoin(Serve(ListenerHandler(listener, sites, policies), {}, r), listener, Serve(hosts, now, r), inner, rest,
                 policies, {}, r);
    } else {
      assert names == listener;
    }
    NewNamesAreFirsts(names);
    var guards := Guards(Firsts(names), policies);
    if Verdict(guards, r).None? {
      CutPassed(guards, r);
      assert guards + [] == guards;
    }
  }

  // ----- At most once -----

  predicate AllDifferent<T(==)>(s: seq<T>) {
    forall i, j | 0 <= i < j < |s| :: s[i] != s[j]
  }

  lemma {:induction false} FirstsDiffer(names: seq<string>)
    ensures AllDifferent(Firsts(names))
    ensures forall n :: n in Firsts(names) <==> n in names
  {
    if names != [] {
      var n := |names| - 1;
      FirstsDiffer(names[..n]);
      assert names == names[..n] + [names[n]];
    }
  }

  /** `n` occurs in `names` before any `m`. */
  predicate Before(names: seq<string>, n: string, m: string) {
    exists i :: 0 <= i < |names| && names[i] == n && m !in names[..i + 1]
  }

  /** First occurrences keep their order. */
  lemma {:induction false} FirstsInOrder(names: seq<string>, i: nat, j: nat)
    requires i < j < |Firsts(names)|
    ensures Before(names, Firsts(names)[i], Firsts(names)[j])
  {
    var n := |names| - 1;
    var shorter := names[..n];
    FirstsDiffer(shorter);
    var a, b := Firsts(names)[i], Firsts(names)[j];
    if j < |Firsts(shorter)| {
      FirstsInOrder(shorter, i, j);
      var k :| 0 <= k < |shorter| && shorter[k] == a && b !in shorter[..k + 1];
      assert names[k] == a && names[..k + 1] == shorter[..k + 1];
    } else {
      assert Firsts(shorter)[i] == a && a in shorter;
      var k :| 0 <= k < n && shorter[k] == a;
      assert b == names[n] && b !in shorter;
      assert forall x | x in names[..k + 1] :: x in shorter;
    }
  }

  lemma PartsDiffer(d: Definition, instance: nat)
    ensures AllDifferent(MiddlewareOf(d, instance))
    ensures forall m | m in MiddlewareOf(d, instance) :: m.instance == instance
  {
  }

  lemma {:induction false} GuardsOwned(names: seq<string>, policies: PolicyTable, bound: nat, m: Middleware)
    requires SoundTable(policies, bound) && (forall n | n in names :: n in policies)
    requires m in Guards(names, policies)
    ensures exists n :: n in names && policies[n].instance == m.instance
  {
    hide MiddlewareOf, DefinitionOk;
    var first := policies[names[0]];
    assert SoundPolicy(names[0], first, bound);
    if m in first.middleware {
      PartsDiffer(first.definition, first.instance);
      assert policies[names[0]].instance == m.instance;
    } else {
      GuardsOwned(names[1..], policies, bound, m);
    }
  }

  lemma BothDiffer<T>(a: seq<T>, b: seq<T>)
    requires AllDifferent(a) && AllDifferent(b) && forall x | x in b :: x !in a
    ensures AllDifferent(a + b)
  {
    forall i, j | 0 <= i < j < |a + b|
      ensures (a + b)[i] != (a + b)[j]
    {
      if i < |a| <= j {
        assert b[j - |a|] in b;
      }
    }
  }

  /** No middleware instance runs twice for a request. */
  lemma {:induction false} GuardsDiffer(names: seq<string>, policies: PolicyTable, bound: nat)
    requires SoundTable(policies, bound) && AllDifferent(names) && (forall n | n in names :: n in policies)
    ensures AllDifferent(Guards(names, policies))
  {
    hide MiddlewareOf, DefinitionOk;
    if names != [] {
      var first, rest := policies[names[0]].middleware, Guards(names[1..], policies);
      assert SoundPolicy(names[0], policies[names[0]], bound);
      PartsDiffer(policies[names[0]].definition, policies[names[0]].instance);
      GuardsDiffer(names[1..], policies, bound);
      forall m | m in rest
        ensures m !in first
      {
        GuardsOwned(names[1..], policies, bound, m);
        var n :| n in names[1..] && policies[n].instance == m.instance;
        assert n != names[0];
      }
      BothDiffer(first, rest);
    }
  }
}
