/** Concurrency slots under every interleaving of requests (policy.go:142-156). */
module Slots {
  import opened Wrappers
  import opened Policies
  import opened Handlers

  /** A request being served: the middleware still to run, and the slots it holds, innermost last. */
  datatype Progress = Progress(todo: seq<Middleware>, held: seq<nat>)

  /** What the scheduler may do next. */
  datatype Step =
    | Load(definitions: seq<Definition>)   // a reload: policies are compiled, unchanged ones kept
    | Arrive(id: nat, names: seq<string>)  // a request that names these policies, outermost first
    | Advance(id: nat, rejected: bool)     // run one middleware; `rejected` decides for all but slots
    | Return(id: nat)                      // the handler, or a middleware, returns or panics

  /** The requests inside instance `i`. */
  function Inside(requests: map<nat, Progress>, i: nat): set<nat> {
    set id | id in requests && i in requests[id].held
  }

  predicate Orderly(p: Progress) {
    && AllDifferent(p.todo) && AllDifferent(p.held)
    && (forall m | m in p.todo && m.kind == Policies.Slots :: m.instance !in p.held)
  }

  predicate Balanced(occupied: map<nat, nat>, requests: map<nat, Progress>, i: nat, limit: nat) {
    Taken(occupied, i) == |Inside(requests, i)| <= limit
  }

  /** How many tokens the channel of instance `i` holds. */
  function Taken(occupied: map<nat, nat>, i: nat): nat {
    if i in occupied then occupied[i] else 0
  }

  /** The capacity of the channel of instance `i`. */
  function Cap(caps: map<nat, nat>, i: nat): nat {
    if i in caps then caps[i] else 0
  }

  /** A channel for every policy that limits concurrency, with the maximum that the policy states. */
  function CapsOf(table: PolicyTable, bound: nat): map<nat, nat>
    requires SoundTable(table, bound)
  {
    hide MiddlewareOf;
    assert forall n | n in table :: SoundPolicy(n, table[n], bound);
    map n | n in table && Limits(table[n].definition, Policies.Slots) ::
      table[n].instance := table[n].definition.concurrency.value
  }

  /** Policies in force have channels of the size they state, and channels only exist for instances made so far. */
  predicate Capped(table: PolicyTable, caps: map<nat, nat>, bound: nat) {
    && (forall n | n in table && table[n].definition.concurrency.Some? ::
          table[n].instance in caps && caps[table[n].instance] == table[n].definition.concurrency.value)
    && forall i | i in caps :: i < bound
  }

  lemma CapsOfHolds(table: PolicyTable, bound: nat)
    requires SoundTable(table, bound)
    ensures Capped(table, CapsOf(table, bound), bound)
    ensures forall i | i in CapsOf(table, bound) ::
              exists n :: n in table && table[n].instance == i && table[n].definition.concurrency.Some?
  {
    hide MiddlewareOf, DefinitionOk;
    assert forall n | n in table :: SoundPolicy(n, table[n], bound);
  }

  /** An instance that has a channel is that of an unchanged policy. */
  lemma SameCap(input: seq<Definition>, prev: PolicyTable, table: PolicyTable, first: nat, next: nat,
                caps: map<nat, nat>, n: string)
    requires Compiles(input, prev, table, first, next) && Capped(prev, caps, first) && n in table
    requires table[n].definition.concurrency.Some? && table[n].instance in caps
    ensures caps[table[n].instance] == table[n].definition.concurrency.value
  {
    hide MiddlewareOf, DefinitionOk;
    var j :| 0 <= j < |input| && input[j].name == n;
    assert Entry(input[j], prev, table[n], first, next);
  }

  /** A reload changes the size of no channel, in use or not. */
  lemma LoadKeepsCaps(input: seq<Definition>, prev: PolicyTable, table: PolicyTable, first: nat, next: nat,
                      caps: map<nat, nat>)
    requires SoundTable(prev, first) && Compiles(input, prev, table, first, next) && SoundTable(table, next)
    requires Capped(prev, caps, first) && first <= next
    ensures Capped(table, caps + CapsOf(table, next), next)
    ensures forall i | i in caps :: (caps + CapsOf(table, next))[i] == caps[i]
  {
    hide MiddlewareOf, DefinitionOk, SoundTable, Compiles, CapsOf;
    CapsOfHolds(table, next);
    forall i | i in caps && i in CapsOf(table, next)
      ensures CapsOf(table, next)[i] == caps[i]
    {
      var n :| n in table && table[n].instance == i && table[n].definition.concurrency.Some?;
      SameCap(input, prev, table, first, next, caps, n);
    }
  }

  lemma EntersOne(requests: map<nat, Progress>, id: nat, p: Progress, i: nat)
    requires id in requests && i !in requests[id].held && p.held == requests[id].held + [i]
    ensures |Inside(requests[id := p], i)| == |Inside(requests, i)| + 1
    ensures forall j | j != i :: Inside(requests[id := p], j) == Inside(requests, j)
  {
    assert Inside(requests[id := p], i) == Inside(requests, i) + {id};
  }

  lemma LeavesOne(requests: map<nat, Progress>, id: nat, p: Progress, i: nat)
    requires id in requests && AllDifferent(requests[id].held)
    requires requests[id].held == p.held + [i]
    ensures |Inside(requests[id := p], i)| == |Inside(requests, i)| - 1
    ensures forall j | j != i :: Inside(requests[id := p], j) == Inside(requests, j)
  {
    var held := requests[id].held;
    assert held[|held| - 1] == i && forall k | 0 <= k < |p.held| :: held[k] == p.held[k];
    assert i !in p.held;
    assert Inside(requests[id := p], i) == Inside(requests, i) - {id} && id in Inside(requests, i);
  }

  /** One token more or less in channel `i`, one request more or fewer inside. */
  lemma BalanceMoves(occupied: map<nat, nat>, requests: map<nat, Progress>, i: nat, n: nat,
                     requests': map<nat, Progress>, caps: map<nat, nat>)
    requires forall j :: Balanced(occupied, requests, j, Cap(caps, j))
    requires n == |Inside(requests', i)| <= Cap(caps, i)
    requires forall j | j != i :: Inside(requests', j) == Inside(requests, j)
    ensures forall j :: Balanced(occupied[i := n], requests', j, Cap(caps, j))
  {
    hide Inside;
    forall j
      ensures Balanced(occupied[i := n], requests', j, Cap(caps, j))
    {
      assert Balanced(occupied, requests, j, Cap(caps, j));
    }
  }

  lemma StaysPut(requests: map<nat, Progress>, id: nat, p: Progress)
    requires if id in requests then p.held == requests[id].held else p.held == []
    ensures forall i :: Inside(requests[id := p], i) == Inside(requests, i)
  {
  }

  lemma Departs(requests: map<nat, Progress>, id: nat)
    requires id in requests && requests[id].held == []
    ensures forall i :: Inside(requests - {id}, i) == Inside(requests, i)
  {
  }

  lemma OrderlyTaking(p: Progress, i: nat)
    requires Orderly(p) && p.todo != [] && p.todo[0] == Middleware(i, Policies.Slots)
    ensures Orderly(Progress(p.todo[1..], p.held + [i])) && i !in p.held
  {
    assert p.todo[0] in p.todo;
    forall m | m in p.todo[1..] && m.kind == Policies.Slots
      ensures m.instance !in p.held + [i]
    {
      var k :| 0 <= k < |p.todo[1..]| && p.todo[1..][k] == m;
      assert p.todo[k + 1] == m != p.todo[0];
    }
  }

  lemma RoomGrows(occupied: map<nat, nat>, requests: map<nat, Progress>, caps: map<nat, nat>, more: map<nat, nat>)
    requires forall i :: Balanced(occupied, requests, i, Cap(caps, i))
    requires forall i | i in caps :: i in more && more[i] == caps[i]
    ensures forall i :: Balanced(occupied, requests, i, Cap(more, i))
  {
    hide Inside;
    forall i
      ensures Balanced(occupied, requests, i, Cap(more, i))
    {
      assert Balanced(occupied, requests, i, Cap(caps, i));
    }
  }

  /** The fields of the server. */
  datatype State = State(
    policies: PolicyTable, nextLimiter: nat, caps: map<nat, nat>, occupied: map<nat, nat>,
    requests: map<nat, Progress>)

  /** What a middleware does to the request that meets it. */
  function Advanced(p: Progress, passed: bool): Progress
    requires p.todo != []
  {
    var m := p.todo[0];
    if !passed then Progress([], p.held)
    else if m.kind == Policies.Slots then Progress(p.todo[1..], p.held + [m.instance])
    else Progress(p.todo[1..], p.held)
  }

  /** What each step does; how many tokens the channels hold follows from the requests inside. */
  ghost predicate Did(a: State, b: State, step: Step) {
    match step
    case Load(definitions) =>
      && b.requests == a.requests && b.occupied == a.occupied
      && (forall i | i in a.caps :: i in b.caps && b.caps[i] == a.caps[i])
      && if Acceptable(definitions, a.policies)
         then Compiles(definitions, a.policies, b.policies, a.nextLimiter, b.nextLimiter)
         else b == a
    case Arrive(id, names) =>
      if id in a.requests || !Known(names, a.policies) then b == a
      else
        && (forall n | n in Firsts(names) :: n in a.policies)
        && b == a.(requests := a.requests[id := Progress(Guards(Firsts(names), a.policies), [])])
    case Advance(id, rejected) =>
      if id !in a.requests || a.requests[id].todo == [] then b == a
      else
        var m := a.requests[id].todo[0];
        var passed := if m.kind == Policies.Slots then |Inside(a.requests, m.instance)| < Cap(a.caps, m.instance)
                      else !rejected;
        b == a.(occupied := b.occupied, requests := a.requests[id := Advanced(a.requests[id], passed)])
    case Return(id) =>
      if id !in a.requests then b == a
      else
        var held := a.requests[id].held;
        b == a.(occupied := b.occupied,
                requests := if held == [] then a.requests - {id}
                            else a.requests[id := Progress([], held[..|held| - 1])])
  }

  class Server {
    var policies: PolicyTable
    var nextLimiter: nat
    var caps: map<nat, nat>      // the channels made so far, and their sizes
    var occupied: map<nat, nat>
    var requests: map<nat, Progress>

    constructor ()
      ensures Valid() && policies == map[] && requests == map[]
    {
      policies, nextLimiter, caps, occupied, requests := map[], 0, map[], map[], map[];
    }

    /** Each channel holds one token per request inside, and never more than its capacity. */
    ghost predicate Valid()
      reads this
    {
      && SoundTable(policies, nextLimiter) && Capped(policies, caps, nextLimiter)
      && (forall i :: Balanced(occupied, requests, i, Cap(caps, i)))
      && (forall id | id in requests :: Orderly(requests[id]))
    }

    ghost function View(): State
      reads this
    {
      State(policies, nextLimiter, caps, occupied, requests)
    }

    /** A reload. Requests under way keep their middleware, and unchanged policies their channels and tokens. */
    method Load(definitions: seq<Definition>) returns (ok: bool)
      requires Valid()
      modifies this`policies, this`nextLimiter, this`caps
      ensures Valid() && (ok <==> Acceptable(definitions, old(policies)))
      ensures !ok ==> View() == old(View())
      ensures ok ==> Compiles(definitions, old(policies), policies, old(nextLimiter), nextLimiter)
      ensures forall i | i in old(caps) :: i in caps && caps[i] == old(caps)[i]
    {
      hide SoundTable, Capped, Compiles, Acceptable, Orderly, CapsOf;
      var table, next := CompilePolicies(definitions, policies, nextLimiter);
      if table.Err? {
        return false;
      }
      LoadKeepsCaps(definitions, policies, table.value, nextLimiter, next, caps);
      var more := caps + CapsOf(table.value, next);
      RoomGrows(occupied, requests, caps, more);
      policies, nextLimiter, caps := table.value, next, more;
      return true;
    }

    /** A request arrives. Which middleware it meets is what PoliciesThatRun says. */
    method Arrive(id: nat, names: seq<string>)
      requires Valid() && id !in requests && Known(names, policies)
      modifies this`requests
      ensures Valid() && (forall n | n in Firsts(names) :: n in policies)
      ensures requests == old(requests)[id := Progress(Guards(Firsts(names), policies), [])]
    {
      hide SoundTable, Capped;
      FirstsDiffer(names);
      var guards := Guards(Firsts(names), policies);
      GuardsDiffer(Firsts(names), policies, nextLimiter);
      StaysPut(requests, id, Progress(guards, []));
      assert forall i :: Balanced(occupied, requests, i, Cap(caps, i));
      requests := requests[id := Progress(guards, [])];
    }

    /** No more requests are inside a policy in force than it allows. */
    lemma WithinMaximum(name: string)
      requires Valid() && name in policies && policies[name].definition.concurrency.Some?
      ensures |Inside(requests, policies[name].instance)| <= policies[name].definition.concurrency.value
    {
      hide SoundTable, Orderly;
      assert Balanced(occupied, requests, policies[name].instance, Cap(caps, policies[name].instance));
    }

    /** One middleware runs. A slot is taken if one is free, that is, if fewer than its size are inside. */
    method Advance(id: nat, rejected: bool) returns (passed: bool)
      requires Valid() && id in requests && requests[id].todo != []
      modifies this`occupied, this`requests
      ensures Valid() && id in requests
      ensures
        var p := old(requests)[id];
        var m := p.todo[0];
        && (passed <==>
              if m.kind == Policies.Slots then |Inside(old(requests), m.instance)| < Cap(caps, m.instance)
              else !rejected)
        && View() == old(View()).(occupied := occupied, requests := old(requests)[id := Advanced(p, passed)])
      ensures !passed ==> requests[id] == Progress([], old(requests)[id].held)
      ensures passed ==>
                && requests[id].todo == old(requests)[id].todo[1..]
                && var m := old(requests)[id].todo[0];
                   requests[id].held
                   == old(requests)[id].held + if m.kind == Policies.Slots then [m.instance] else []
      // For a policy in force, the size is the maximum it states.
      ensures
        var m := old(requests)[id].todo[0];
        forall n | n in policies && policies[n].instance == m.instance && policies[n].definition.concurrency.Some? ::
          m.kind == Policies.Slots ==>
            (passed <==> |Inside(old(requests), m.instance)| < policies[n].definition.concurrency.value)
    {
      var p := requests[id];
      var m := p.todo[0];
      assert Orderly(p);
      if m.kind == Policies.Slots {
        var i := m.instance;
        assert Balanced(occupied, requests, i, Cap(caps, i));
        passed := Taken(occupied, i) < Cap(caps, i);
        if passed {
          TakeSlot(id, i, Progress(p.todo[1..], p.held + [i]));
          return;
        }
      } else {
        passed := !rejected;
      }
      var p' := if passed then Progress(p.todo[1..], p.held) else Progress([], p.held);
      StaysPut(requests, id, p');
      assert forall i :: Balanced(occupied, requests, i, Cap(caps, i));
      requests := requests[id := p'];
    }

    method TakeSlot(id: nat, i: nat, p: Progress)
      requires Valid() && id in requests && requests[id].todo != []
      requires requests[id].todo[0] == Middleware(i, Policies.Slots)
      requires p == Progress(requests[id].todo[1..], requests[id].held + [i])
      requires Taken(occupied, i) < Cap(caps, i)
      modifies this`occupied, this`requests
      ensures Valid() && requests == old(requests)[id := p]
    {
      var q := requests[id];
      assert Orderly(q);
      OrderlyTaking(q, i);
      hide Orderly, Inside;
      EntersOne(requests, id, p, i);
      assert Balanced(occupied, requests, i, Cap(caps, i));
      BalanceMoves(occupied, requests, i, Taken(occupied, i) + 1, requests[id := p], caps);
      occupied := occupied[i := Taken(occupied, i) + 1];
      requests := requests[id := p];
    }

    /** The innermost frame of the request returns: its deferred receive gives the slot back. */
    method Return(id: nat)
      requires Valid() && id in requests
      modifies this`occupied, this`requests
      ensures Valid()
      ensures
        var held := old(requests)[id].held;
        requests == if held == [] then old(requests) - {id}
                    else old(requests)[id := Progress([], held[..|held| - 1])]
    {
      var held := requests[id].held;
      assert Orderly(requests[id]);
      if held == [] {
        Departs(requests, id);
        assert forall i :: Balanced(occupied, requests, i, Cap(caps, i));
        requests := requests - {id};
      } else {
        GiveBack(id, held[|held| - 1], Progress([], held[..|held| - 1]));
      }
    }

    method GiveBack(id: nat, i: nat, p: Progress)
      requires Valid() && id in requests && p.todo == [] && requests[id].held == p.held + [i]
      modifies this`occupied, this`requests
      ensures Valid() && requests == old(requests)[id := p]
    {
      var held := requests[id].held;
      assert Orderly(requests[id]) && forall k | 0 <= k < |p.held| :: held[k] == p.held[k];
      LeavesOne(requests, id, p, i);
      assert Balanced(occupied, requests, i, Cap(caps, i));
      BalanceMoves(occupied, requests, i, Taken(occupied, i) - 1, requests[id := p], caps);
      occupied := occupied[i := Taken(occupied, i) - 1];
      requests := requests[id := p];
      assert Orderly(p);
    }

    /** One step, as specified. */
    method TakeStep(step: Step)
      requires Valid()
      modifies this
      ensures Valid() && Did(old(View()), View(), step)
    {
      hide Orderly, SoundTable, Capped, Acceptable, Compiles, Inside;
      match step
      case Load(definitions) =>
        var _ := Load(definitions);
      case Arrive(id, names) =>
        if id !in requests && Known(names, policies) {
          Arrive(id, names);
        }
      case Advance(id, rejected) =>
        if id in requests && requests[id].todo != [] {
          var _ := Advance(id, rejected);
        }
      case Return(id) =>
        if id in requests {
          Return(id);
        }
    }

    /** Any interleaving, reloads included: when all requests are gone every slot is free again. */
    method Run(steps: seq<Step>) returns (ghost states: seq<State>)
      requires Valid()
      modifies this
      ensures Valid() && (requests == map[] ==> forall i :: Taken(occupied, i) == 0)
      ensures |states| == |steps| + 1 && states[0] == old(View()) && states[|steps|] == View()
      ensures forall k | 0 <= k < |steps| :: Did(states[k], states[k + 1], steps[k])
    {
      states := [View()];
      for k := 0 to |steps|
        invariant Valid() && |states| == k + 1 && states[0] == old(View()) && states[k] == View()
        invariant forall j | 0 <= j < k :: Did(states[j], states[j + 1], steps[j])
      {
        hide Did, Valid;
        TakeStep(steps[k]);
        states := states + [View()];
      }
      if requests == map[] {
        forall i
          ensures Taken(occupied, i) == 0
        {
          assert Balanced(occupied, requests, i, Cap(caps, i)) && Inside(requests, i) == {};
        }
      }
    }
  }
}
