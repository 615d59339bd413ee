/** Compiling policies, and reusing them across reloads (policy.go:24-87). */
module Policies {
  import opened Wrappers
  import RateLimiterRefinement

  // ----- Definitions -----

  datatype RequestPolicy = RequestPolicy(maxBodyBytes: int, timeout: int)

  datatype Definition = Definition(
    name: string, request: Option<RequestPolicy>,
    rateLimit: Option<RateLimiterRefinement.Policy>, concurrency: Option<int>)

  datatype Kind = Timeout | BodyLimit | RateLimit | Slots

  /** A middleware with its own state: the buckets or slots that `instance` was given when it was compiled. */
  datatype Middleware = Middleware(instance: nat, kind: Kind)

  datatype Compiled = Compiled(definition: Definition, instance: nat, middleware: seq<Middleware>)

  datatype PolicyError =
    | NegativeRequestLimit | NoRequestLimit | BadRateLimit | BadConcurrency | NoLimits
    | NameRequired | DuplicateName(name: string) | UnknownPolicy(name: string)

  type PolicyTable = map<string, Compiled>

  // ----- Compiling one policy -----

  predicate RequestOk(p: RequestPolicy) {
    p.maxBodyBytes >= 0 && p.timeout >= 0 && (p.maxBodyBytes > 0 || p.timeout > 0)
  }

  predicate RateLimitOk(p: RateLimiterRefinement.Policy) {
    RateLimiterRefinement.InRange(p) && p.key != RateLimiterRefinement.Unsupported
  }

  predicate DefinitionOk(d: Definition) {
    && (d.request.Some? || d.rateLimit.Some? || d.concurrency.Some?)
    && (d.request.Some? ==> RequestOk(d.request.value))
    && (d.rateLimit.Some? ==> RateLimitOk(d.rateLimit.value))
    && (d.concurrency.Some? ==> d.concurrency.value > 0)
  }

  /** The policy has a middleware of this kind. */
  predicate Limits(d: Definition, k: Kind) {
    match k
    case Timeout => d.request.Some? && d.request.value.timeout > 0
    case BodyLimit => d.request.Some? && d.request.value.maxBodyBytes > 0
    case RateLimit => d.rateLimit.Some?
    case Slots => d.concurrency.Some?
  }

  function Part(d: Definition, k: Kind, instance: nat): seq<Middleware> {
    if Limits(d, k) then [Middleware(instance, k)] else []
  }

  /** The middleware of a policy, outermost first. */
  function MiddlewareOf(d: Definition, instance: nat): seq<Middleware> {
    Part(d, Timeout, instance) + Part(d, BodyLimit, instance) + Part(d, RateLimit, instance) + Part(d, Slots, instance)
  }

  method CompilePolicy(d: Definition, instance: nat) returns (r: Result<Compiled, PolicyError>)
    ensures r.Ok? <==> DefinitionOk(d)
    ensures r.Ok? ==> r.value == Compiled(d, instance, MiddlewareOf(d, instance))
  {
    var middleware: seq<Middleware> := [];
    if d.request.Some? {
      var config := d.request.value;
      if config.maxBodyBytes < 0 || config.timeout < 0 {
        return Err(NegativeRequestLimit);
      }
      if config.maxBodyBytes == 0 && config.timeout == 0 {
        return Err(NoRequestLimit);
      }
      if config.timeout > 0 {
        middleware := middleware + [Middleware(instance, Timeout)];
      }
      if config.maxBodyBytes > 0 {
        middleware := middleware + [Middleware(instance, BodyLimit)];
      }
    }
    if d.rateLimit.Some? {
      if RateLimiterRefinement.Compile(d.rateLimit.value).None? {
        return Err(BadRateLimit);
      }
      middleware := middleware + [Middleware(instance, RateLimit)];
    }
    if d.concurrency.Some? {
      if d.concurrency.value <= 0 {
        return Err(BadConcurrency);
      }
      middleware := middleware + [Middleware(instance, Slots)];
    }
    if |middleware| == 0 {
      return Err(NoLimits);
    }
    r := Ok(Compiled(d, instance, middleware));
  }

  function Rank(k: Kind): nat {
    match k case Timeout => 0 case BodyLimit => 1 case RateLimit => 2 case Slots => 3
  }

  predicate Ordered(m: seq<Middleware>) {
    forall i, j | 0 <= i < j < |m| :: Rank(m[i].kind) < Rank(m[j].kind)
  }

  lemma OrderedNext(m: seq<Middleware>, d: Definition, k: Kind, instance: nat)
    requires Ordered(m) && forall x | x in m :: Rank(x.kind) < Rank(k)
    ensures
      var more := m + Part(d, k, instance);
      Ordered(more) && forall x :: x in more <==> x in m || (Limits(d, k) && x == Middleware(instance, k))
  {
    hide Limits;
    var more := m + Part(d, k, instance);
    assert forall x | x in Part(d, k, instance) :: x == Middleware(instance, k);
    if Limits(d, k) {
      assert Middleware(instance, k) in Part(d, k, instance);
    }
  }

  /** What a policy enforces: each limit that it sets, once, in this order, and nothing else. */
  lemma MiddlewareMeans(d: Definition, instance: nat)
    ensures
      var m := MiddlewareOf(d, instance);
      && (Middleware(instance, Timeout) in m <==> d.request.Some? && d.request.value.timeout > 0)
      && (Middleware(instance, BodyLimit) in m <==> d.request.Some? && d.request.value.maxBodyBytes > 0)
      && (Middleware(instance, RateLimit) in m <==> d.rateLimit.Some?)
      && (Middleware(instance, Slots) in m <==> d.concurrency.Some?)
      && (forall x | x in m :: x.instance == instance) && Ordered(m)
  {
    hide Part, Ordered;
    assert Ordered([]) by { NoneOrdered(); }
    OrderedNext([], d, Timeout, instance);
    OrderedNext([] + Part(d, Timeout, instance), d, BodyLimit, instance);
    var two := [] + Part(d, Timeout, instance) + Part(d, BodyLimit, instance);
    OrderedNext(two, d, RateLimit, instance);
    OrderedNext(two + Part(d, RateLimit, instance), d, Slots, instance);
    assert [] + Part(d, Timeout, instance) == Part(d, Timeout, instance);
  }

  lemma NoneOrdered()
    ensures Ordered([])
  {
  }

  /** A policy is fine exactly if every number it gives is in range and it enforces something. */
  lemma DefinitionOkIff(d: Definition)
    ensures DefinitionOk(d) <==>
            && (d.request.Some? ==> d.request.value.maxBodyBytes >= 0 && d.request.value.timeout >= 0
                                    && d.request.value != RequestPolicy(0, 0))
            && (d.rateLimit.Some? ==> RateLimiterRefinement.Compile(d.rateLimit.value).Some?)
            && (d.concurrency.Some? ==> d.concurrency.value > 0)
            && MiddlewareOf(d, 0) != []
  {
    MiddlewareMeans(d, 0);
  }

  // ----- Compiling all of them -----

  predicate Unchanged(prev: PolicyTable, d: Definition) {
    d.name in prev && prev[d.name].definition == d
  }

  predicate Acceptable(input: seq<Definition>, prev: PolicyTable) {
    && (forall i | 0 <= i < |input| :: input[i].name != "")
    && (forall i, j | 0 <= i < j < |input| :: input[i].name != input[j].name)
    && (forall i | 0 <= i < |input| :: Unchanged(prev, input[i]) || DefinitionOk(input[i]))
  }

  /** A compiled policy is what its definition says, and new ones carry a number from `first` on. */
  predicate Entry(d: Definition, prev: PolicyTable, p: Compiled, first: nat, next: nat) {
    if Unchanged(prev, d) then p == prev[d.name]
    else DefinitionOk(d) && first <= p.instance < next && p == Compiled(d, p.instance, MiddlewareOf(d, p.instance))
  }

  predicate Compiles(input: seq<Definition>, prev: PolicyTable, table: PolicyTable, first: nat, next: nat) {
    && (forall i | 0 <= i < |input| ::
          input[i].name in table && Entry(input[i], prev, table[input[i].name], first, next))
    && (forall n | n in table :: exists i :: 0 <= i < |input| && input[i].name == n)
  }

  /** Every policy is filed under its name and has limiters of its own. */
  predicate SoundTable(table: PolicyTable, bound: nat) {
    && (forall n | n in table :: SoundPolicy(n, table[n], bound))
    && (forall n, m | n in table && m in table && table[n].instance == table[m].instance :: n == m)
  }

  predicate SoundPolicy(name: string, p: Compiled, bound: nat) {
    p.definition.name == name && p.instance < bound && p.middleware == MiddlewareOf(p.definition, p.instance)
    && DefinitionOk(p.definition)
  }

  /**
   Said of the definitions themselves: each is in force under its name. It has limiters that were there before exactly
   if a policy of that name with that definition was, and then those.
   */
  ghost predicate Carried(input: seq<Definition>, prev: PolicyTable, table: PolicyTable) {
    forall i | 0 <= i < |input| ::
      var d := input[i];
      && d.name in table && table[d.name].definition == d
      && ((exists n :: n in prev && prev[n].instance == table[d.name].instance)
          <==> d.name in prev && prev[d.name].definition == d)
      && (d.name in prev && prev[d.name].definition == d ==> table[d.name] == prev[d.name])
  }

  lemma CompiledIsCarried(input: seq<Definition>, prev: PolicyTable, table: PolicyTable, first: nat, next: nat)
    requires SoundTable(prev, first) && Compiles(input, prev, table, first, next)
    ensures Carried(input, prev, table)
  {
    hide SoundTable, Compiles;
    forall i | 0 <= i < |input|
      ensures input[i].name in table && table[input[i].name].definition == input[i]
      ensures (exists n :: n in prev && prev[n].instance == table[input[i].name].instance)
              <==> input[i].name in prev && prev[input[i].name].definition == input[i]
      ensures input[i].name in prev && prev[input[i].name].definition == input[i]
              ==> table[input[i].name] == prev[input[i].name]
    {
      SurvivesIff(input, prev, table, first, next, i);
    }
  }

  /** What may run does not depend on what ran before: names are there and differ, and every definition is fine. */
  lemma AcceptableIff(input: seq<Definition>, prev: PolicyTable, first: nat)
    requires SoundTable(prev, first)
    ensures Acceptable(input, prev) <==>
            && (forall i | 0 <= i < |input| :: input[i].name != "" && DefinitionOk(input[i]))
            && forall i, j | 0 <= i < j < |input| :: input[i].name != input[j].name
  {
    hide DefinitionOk, MiddlewareOf;
    forall i | 0 <= i < |input| && Unchanged(prev, input[i])
      ensures DefinitionOk(input[i])
    {
      assert SoundPolicy(input[i].name, prev[input[i].name], first);
    }
  }

  lemma SoundTableGrows(table: PolicyTable, bound: nat, more: nat)
    requires SoundTable(table, bound) && bound <= more
    ensures SoundTable(table, more)
  {
    hide MiddlewareOf, DefinitionOk;
    forall n | n in table
      ensures SoundPolicy(n, table[n], more)
    {
      assert SoundPolicy(n, table[n], bound);
    }
  }

  /** Instances number the limiters made so far; `first` is the first unused number. */
  method CompilePolicies(input: seq<Definition>, prev: PolicyTable, first: nat)
    returns (r: Result<PolicyTable, PolicyError>, next: nat)
    requires SoundTable(prev, first)
    ensures r.Ok? <==> Acceptable(input, prev)
    ensures first <= next
    ensures r.Ok? ==> Compiles(input, prev, r.value, first, next) && SoundTable(r.value, next)
    ensures r.Ok? ==> Carried(input, prev, r.value)
  {
    hide MiddlewareOf, DefinitionOk;
    next := first;
    var table: PolicyTable := map[];
    for i := 0 to |input|
      invariant first <= next
      invariant Acceptable(input[..i], prev)
      invariant Compiles(input[..i], prev, table, first, next)
      invariant SoundTable(table, next)
      invariant Origins(table, prev, first)
    {
      var d := input[i];
      if d.name == "" {
        return Err(NameRequired), next;
      }
      if d.name in table {
        return Err(DuplicateName(d.name)), next;
      }
      if d.name in prev && prev[d.name].definition == d {
        OldEntry(input, i, prev, table, first, next);
        table := table[d.name := prev[d.name]];
        continue;
      }
      var compiled := CompilePolicy(d, next);
      if compiled.Err? {
        return Err(compiled.error), next;
      }
      NewEntry(input, i, prev, table, compiled.value, first, next);
      table := table[d.name := compiled.value];
      next := next + 1;
    }
    assert input[..|input|] == input;
    CompiledIsCarried(input, prev, table, first, next);
    r := Ok(table);
  }

  /** Limiters numbered below `first` come from the previous table, under the same name. */
  predicate Origins(table: PolicyTable, prev: PolicyTable, first: nat) {
    forall n | n in table :: table[n].instance >= first || (n in prev && table[n] == prev[n])
  }

  lemma ExtendedInput(input: seq<Definition>, i: nat, prev: PolicyTable)
    requires i < |input| && Acceptable(input[..i], prev)
    requires input[i].name != "" && (Unchanged(prev, input[i]) || DefinitionOk(input[i]))
    requires forall j | 0 <= j < i :: input[..i][j].name != input[i].name
    ensures Acceptable(input[..i + 1], prev)
  {
    hide DefinitionOk, Unchanged;
    assert input[..i + 1] == input[..i] + [input[i]];
  }

  lemma ExtendedTable(input: seq<Definition>, i: nat, prev: PolicyTable, table: PolicyTable, p: Compiled,
                      first: nat, next: nat, next': nat)
    requires i < |input| && Compiles(input[..i], prev, table, first, next) && input[i].name !in table
    requires Entry(input[i], prev, p, first, next') && next <= next'
    ensures Compiles(input[..i + 1], prev, table[input[i].name := p], first, next')
  {
    hide DefinitionOk, MiddlewareOf, Unchanged;
    var more, table' := input[..i + 1], table[input[i].name := p];
    assert more == input[..i] + [input[i]];
    forall n | n in table'
      ensures exists j :: 0 <= j < |more| && more[j].name == n
    {
      if n == input[i].name {
        assert more[i].name == n;
      } else {
        var j :| 0 <= j < |input[..i]| && input[..i][j].name == n;
        assert more[j].name == n;
      }
    }
    forall j | 0 <= j < |more|
      ensures more[j].name in table' && Entry(more[j], prev, table'[more[j].name], first, next')
    {
      if j < i {
        assert more[j] == input[..i][j];
      }
    }
  }

  lemma OldEntry(input: seq<Definition>, i: nat, prev: PolicyTable, table: PolicyTable, first: nat, next: nat)
    requires i < |input| && Acceptable(input[..i], prev) && Compiles(input[..i], prev, table, first, next)
    requires SoundTable(prev, first) && SoundTable(table, next) && Origins(table, prev, first) && first <= next
    requires input[i].name != "" && input[i].name !in table && Unchanged(prev, input[i])
    ensures
      var name := input[i].name;
      var table' := table[name := prev[name]];
      && Acceptable(input[..i + 1], prev) && Compiles(input[..i + 1], prev, table', first, next)
      && SoundTable(table', next) && Origins(table', prev, first)
  {
    hide MiddlewareOf, DefinitionOk;
    ExtendedTable(input, i, prev, table, prev[input[i].name], first, next, next);
    ExtendedInput(input, i, prev);
  }

  lemma NewEntry(input: seq<Definition>, i: nat, prev: PolicyTable, table: PolicyTable, p: Compiled, first: nat,
                 next: nat)
    requires i < |input| && Acceptable(input[..i], prev) && Compiles(input[..i], prev, table, first, next)
    requires SoundTable(table, next) && Origins(table, prev, first) && first <= next
    requires input[i].name != "" && input[i].name !in table && !Unchanged(prev, input[i])
    requires DefinitionOk(input[i]) && p == Compiled(input[i], next, MiddlewareOf(input[i], next))
    ensures
      var table' := table[input[i].name := p];
      && Acceptable(input[..i + 1], prev) && Compiles(input[..i + 1], prev, table', first, next + 1)
      && SoundTable(table', next + 1) && Origins(table', prev, first)
  {
    hide MiddlewareOf, DefinitionOk;
    ExtendedTable(input, i, prev, table, p, first, next, next + 1);
    ExtendedInput(input, i, prev);
  }

  /** Buckets and slots survive a reload exactly when the definition does, under the same name. */
  lemma SurvivesIff(input: seq<Definition>, prev: PolicyTable, table: PolicyTable, first: nat, next: nat, i: nat)
    requires SoundTable(prev, first) && Compiles(input, prev, table, first, next) && i < |input|
    ensures
      var d := input[i];
      && d.name in table && table[d.name].definition == d
      && ((exists n :: n in prev && prev[n].instance == table[d.name].instance)
          <==> d.name in prev && prev[d.name].definition == d)
      && (d.name in prev && prev[d.name].definition == d ==> table[d.name] == prev[d.name])
  {
    hide MiddlewareOf, DefinitionOk;
    var d := input[i];
    var p := table[d.name];
    assert Entry(d, prev, p, first, next);
    if d.name in prev && prev[d.name].definition == d {
      assert d.name in prev && prev[d.name].instance == p.instance;
    }
    forall n | n in prev
      ensures prev[n].instance < first
    {
      assert SoundPolicy(n, prev[n], first);
    }
  }
}
