/** Binding and restoring listeners: what the server's operations rest on (server.go:224-249, server.go:332-347). */
module Binding {
  import opened Wrappers
  import opened Snapshots
  import opened Network

  type Listeners = map<string, Running>

  type Specs = map<string, ListenerSpec>

  /** The listener that could not be bound, and why. */
  datatype BindError = BindError(name: string, cause: Outcome)

  /** Listeners that a snapshot drops or changes. */
  function Stale(running: Listeners, bound: Specs): set<string> {
    set n | n in running && !(n in bound && bound[n] == running[n].spec)
  }

  /** Listeners that run on. */
  function Kept(running: Listeners, bound: Specs): (kept: Listeners)
    ensures Follow(kept, bound)
  {
    map n | n in running && n in bound && bound[n] == running[n].spec :: running[n]
  }

  /** Listeners run with the specs that the snapshot asks for. */
  predicate Follow(running: Listeners, bound: Specs) {
    forall n | n in running :: n in bound && running[n].spec == bound[n]
  }

  lemma KeptIff(running: Listeners, bound: Specs, name: string)
    requires name in bound
    ensures name in Kept(running, bound) <==> name in running && running[name].spec == bound[name]
  {
  }

  /** All but `todo` and those that run on have been begun. */
  ghost predicate Begun(begun: Listeners, bound: Specs, todo: set<string>, kept: Listeners) {
    forall n :: n in begun <==> n in bound && n !in todo && n !in kept
  }

  lemma NoneBegun(bound: Specs, kept: Listeners)
    ensures Begun(map[], bound, bound.Keys, kept)
  {
  }

  lemma AllBegun(begun: Listeners, bound: Specs, kept: Listeners)
    requires Begun(begun, bound, {}, kept)
    ensures forall n :: n in begun <==> n in bound && n !in kept
  {
  }

  lemma BegunNext(begun: Listeners, bound: Specs, todo: set<string>, kept: Listeners, name: string)
    requires Begun(begun, bound, todo, kept) && name in todo && todo <= bound.Keys
    ensures kept.Keys !! begun.Keys && name in bound && name !in begun
    ensures name in kept ==> Begun(begun, bound, todo - {name}, kept)
  {
  }

  lemma BegunOneMore(begun: Listeners, more: Listeners, bound: Specs, todo: set<string>, kept: Listeners, name: string)
    requires Begun(begun, bound, todo, kept) && name in todo && name in bound && name !in kept
    requires more.Keys == begun.Keys + {name}
    ensures Begun(more, bound, todo - {name}, kept)
  {
    assert forall n :: n in more <==> n in begun || n == name;
  }

  lemma FollowNone(bound: Specs)
    ensures Follow(map[], bound)
  {
  }

  function Only(live: Listeners, names: set<string>): Listeners {
    map n | n in live && n in names :: live[n]
  }

  /** What stays open when the listeners that `bound` drops or changes are closed. */
  function Remaining(open: map<Socket, string>, running: Listeners, bound: Specs): map<Socket, string> {
    open - Sockets(Only(running, Stale(running, bound)))
  }

  predicate Part<K, V(==)>(a: map<K, V>, b: map<K, V>) {
    forall s | s in a :: s in b && a[s] == b[s]
  }

  /** Sockets were only closed. */
  predicate Shrunk(before: Net, after: Net) {
    Part(after.open, before.open) && after.calls == before.calls
  }

  /** Sockets were only opened. */
  predicate Grown(before: Net, after: Net) {
    Part(before.open, after.open) && after.calls >= before.calls
  }

  lemma ShrunkTwice(a: Net, b: Net, c: Net)
    requires Shrunk(a, b) && Shrunk(b, c)
    ensures Shrunk(a, c)
  {
  }

  lemma GrownNot(a: Net)
    ensures Grown(a, a)
  {
  }

  lemma GrownTwice(a: Net, b: Net, c: Net)
    requires Grown(a, b) && Grown(b, c)
    ensures Grown(a, c)
  {
  }

  /** Sockets were closed or opened, and none changed its address. */
  predicate Evolves(before: Net, after: Net) {
    && after.calls >= before.calls
    && forall s | s in after.open :: s >= before.calls || (s in before.open && after.open[s] == before.open[s])
  }

  lemma EvolvesTwice(a: Net, b: Net, c: Net)
    requires Evolves(a, b) && Evolves(b, c)
    ensures Evolves(a, c)
  {
  }

  lemma StaysPut(net: Net)
    ensures Evolves(net, net)
  {
  }

  lemma NothingClosed(net: Net, live: Listeners, closing: set<string>)
    ensures Shrunk(net, net) && live - (closing - closing) == live
  {
    assert closing - closing == {};
  }

  lemma OneMoreClosed(live: Listeners, closing: set<string>, todo: set<string>, name: string)
    requires name in todo && todo <= closing
    ensures live - (closing - todo) - {name} == live - (closing - (todo - {name}))
  {
  }

  lemma FollowBoth(a: Listeners, b: Listeners, bound: Specs)
    requires Follow(a, bound) && Follow(b, bound)
    ensures Follow(a + b, bound)
  {
  }

  lemma MergeMinus<K, V>(a: map<K, V>, b: map<K, V>)
    requires a.Keys !! b.Keys
    ensures a + b - b.Keys == a
  {
  }

  lemma SameSockets(a: map<Socket, string>, b: map<Socket, string>, live: Listeners, leaving: set<Socket>)
    requires Accounts(a, live, leaving) && Accounts(b, live, leaving)
    requires forall s | s in a && s in b :: a[s] == b[s]
    ensures a == b
  {
  }

  lemma AccountsBind(open: map<Socket, string>, kept: Listeners, begun: Listeners, leaving: set<Socket>,
                     name: string, spec: ListenerSpec, socket: Socket, endpoint: string)
    requires Accounts(open, kept + begun, leaving) && name !in kept && name !in begun && socket !in open
    requires Ephemeral(spec.address) || endpoint == spec.address
    ensures Accounts(open[socket := endpoint], kept + begun[name := Running(spec, socket)], leaving)
  {
    AccountsAdd(open, kept + begun, leaving, name, Running(spec, socket), endpoint);
    assert kept + begun[name := Running(spec, socket)] == (kept + begun)[name := Running(spec, socket)];
  }

  // ----- When binding succeeds -----

  predicate Fixed(spec: ListenerSpec) {
    !Ephemeral(spec.address)
  }

  /** Some listener leaves its port to the kernel. */
  predicate Picks(bound: Specs) {
    exists n :: n in bound && !Fixed(bound[n])
  }

  /** The address picked at call `k` is free, also of addresses asked for and of what the other calls pick. */
  ghost predicate FreePick(h: Host, from: nat, to: int, k: nat, bound: Specs, open: map<Socket, string>) {
    && !HeldOutside(h, h.env(k).foreign, h.env(k).pick) && !Blocked(h, open, h.env(k).pick)
    && (forall n | n in bound && Fixed(bound[n]) :: !Clash(h, h.env(k).pick, bound[n].address))
    && (forall j: nat | from <= j < to && j != k :: !Clash(h, h.env(j).pick, h.env(k).pick))
  }

  ghost predicate CalmCall(h: Host, from: nat, to: int, k: nat, bound: Specs, open: map<Socket, string>) {
    && !h.env(k).fault
    && (forall n | n in bound && Fixed(bound[n]) :: !HeldOutside(h, h.env(k).foreign, bound[n].address))
    && (Picks(bound) ==> FreePick(h, from, to, k, bound, open))
  }

  /** During the calls from `from` to `to`, nothing outside the server is in the way of `bound`. */
  ghost predicate Calm(h: Host, from: nat, to: int, bound: Specs, open: map<Socket, string>) {
    forall k: nat | from <= k < to :: CalmCall(h, from, to, k, bound, open)
  }

  lemma CalmSoFar(h: Host, from: nat, to: int, less: int, bound: Specs, open: map<Socket, string>)
    requires Calm(h, from, to, bound, open) && less <= to
    ensures Calm(h, from, less, bound, open)
  {
    hide HeldOutside, Blocked, Clash;
    forall k: nat | from <= k < less
      ensures CalmCall(h, from, less, k, bound, open)
    {
      assert CalmCall(h, from, to, k, bound, open);
    }
  }

  /** The listeners still to bind exclude neither each other nor what is open. */
  ghost predicate Fits(h: Host, bound: Specs, kept: Listeners, open: map<Socket, string>) {
    forall a | a in bound && a !in kept && Fixed(bound[a]) ::
      !Blocked(h, open, bound[a].address) && !Rival(h, bound, kept, a)
  }

  /** Another listener still to bind asks for an address that excludes that of `a`. */
  predicate Rival(h: Host, bound: Specs, kept: Listeners, a: string)
    requires a in bound
  {
    exists b :: b in bound && b !in kept && b != a && Fixed(bound[b]) && Clash(h, bound[b].address, bound[a].address)
  }

  /** No two of the addresses asked for exclude each other. */
  ghost predicate Disjoint(h: Host, bound: Specs) {
    forall a, b | a in bound && b in bound && a != b && Fixed(bound[a]) && Fixed(bound[b]) ::
      !Clash(h, bound[a].address, bound[b].address)
  }

  function Endpoint(h: Host, r: Running): string {
    if Fixed(r.spec) then r.spec.address else h.env(r.socket).pick
  }

  /** The calls from `from` to `to` bound one of the listeners `begun` each, with nothing outside in their way. */
  ghost predicate Replay(h: Host, bound: Specs, kept: Listeners, from: nat, to: nat, begun: Listeners) {
    && Follow(begun, bound)
    && (forall n | n in begun :: n !in kept && from <= begun[n].socket < to && Worked(h, begun[n]))
    && forall j | from <= j < to :: BoundAt(begun, j)
  }

  predicate BoundAt(begun: Listeners, j: int) {
    exists n :: n in begun && begun[n].socket == j
  }

  ghost predicate Worked(h: Host, r: Running) {
    !h.env(r.socket).fault && !HeldOutside(h, h.env(r.socket).foreign, Endpoint(h, r))
  }

  predicate ClashesOne(h: Host, begun: Listeners, endpoint: string) {
    exists n :: n in begun && Clash(h, Endpoint(h, begun[n]), endpoint)
  }

  /** Something open excludes the endpoint, or a listener that was bound just before. */
  ghost predicate InTheWay(h: Host, bound: Specs, kept: Listeners, from: nat, k: nat, open: map<Socket, string>,
                           name: string, endpoint: string) {
    || Blocked(h, open, endpoint)
    || exists begun: Listeners ::
         Replay(h, bound, kept, from, k, begun) && name !in begun && ClashesOne(h, begun, endpoint)
  }

  /** What made call `k` fail for listener `e.name` is really there. */
  ghost predicate Truthful(h: Host, bound: Specs, kept: Listeners, e: BindError, from: nat, k: nat,
                           open: map<Socket, string>) {
    && e.name in bound && e.name !in kept && from <= k
    && var address, step := bound[e.name].address, h.env(k);
       var fixed := Fixed(bound[e.name]);
       match e.cause
       case Bound(_) => false
       case InUse => fixed && InTheWay(h, bound, kept, from, k, open, e.name, address)
       case Taken => fixed && HeldOutside(h, step.foreign, address)
       case Fault =>
         || step.fault
         || (!fixed && (HeldOutside(h, step.foreign, step.pick)
                        || InTheWay(h, bound, kept, from, k, open, e.name, step.pick)))
  }

  /** Binding succeeds only when everything fits, and in calm surroundings always when it does. */
  ghost predicate Decided(h: Host, from: nat, to: int, bound: Specs, kept: Listeners, open: map<Socket, string>,
                          ok: bool) {
    && (ok ==> Fits(h, bound, kept, open))
    && (Calm(h, from, to, bound, open) && Fits(h, bound, kept, open) ==> ok)
  }

  /** In calm surroundings nothing is in the way of what fits. */
  lemma {:induction false} CalmIsClear(h: Host, bound: Specs, kept: Listeners, from: nat, k: nat,
                                       open: map<Socket, string>, name: string)
    requires Calm(h, from, k + 1, bound, open) && Fits(h, bound, kept, open) && from <= k
    requires name in bound && name !in kept
    ensures
      var endpoint := if Fixed(bound[name]) then bound[name].address else h.env(k).pick;
      !InTheWay(h, bound, kept, from, k, open, name, endpoint)
  {
    hide Blocked, HeldOutside, Clash;
    var endpoint := if Fixed(bound[name]) then bound[name].address else h.env(k).pick;
    assert CalmCall(h, from, k + 1, k, bound, open);
    forall begun: Listeners | Replay(h, bound, kept, from, k, begun) && name !in begun
      ensures !ClashesOne(h, begun, endpoint)
    {
      forall n | n in begun
        ensures !Clash(h, Endpoint(h, begun[n]), endpoint)
      {
        CalmOne(h, bound, kept, from, k, open, name, begun, n);
      }
    }
  }

  lemma {:induction false} CalmOne(h: Host, bound: Specs, kept: Listeners, from: nat, k: nat,
                                   open: map<Socket, string>, name: string, begun: Listeners, n: string)
    requires Calm(h, from, k + 1, bound, open) && Fits(h, bound, kept, open) && from <= k
    requires name in bound && name !in kept && n in begun && n != name
    requires n !in kept && n in bound && begun[n].spec == bound[n] && from <= begun[n].socket < k
    ensures
      var endpoint := if Fixed(bound[name]) then bound[name].address else h.env(k).pick;
      !Clash(h, Endpoint(h, begun[n]), endpoint)
  {
    hide Blocked, HeldOutside;
    var j := begun[n].socket;
    assert CalmCall(h, from, k + 1, k, bound, open) && CalmCall(h, from, k + 1, j, bound, open);
    if Fixed(bound[name]) {
      assert !Rival(h, bound, kept, name);
    }
  }

  lemma {:induction false} FailureDecides(h: Host, bound: Specs, kept: Listeners, e: BindError, from: nat, k: nat,
                                          open: map<Socket, string>)
    requires Truthful(h, bound, kept, e, from, k, open)
    ensures Decided(h, from, k + 1, bound, kept, open, false)
  {
    hide Blocked, Rival, HeldOutside, Clash, InTheWay, Fits;
    if Calm(h, from, k + 1, bound, open) && Fits(h, bound, kept, open) {
      assert CalmCall(h, from, k + 1, k, bound, open);
      CalmIsClear(h, bound, kept, from, k, open, e.name);
    }
  }

  /** Where the sockets come from while `begun` is being bound: from before, or one per listener begun. */
  ghost predicate Grounds(h: Host, start: Net, net: Net, bound: Specs, kept: Listeners, begun: Listeners) {
    && start.calls <= net.calls
    && Replay(h, bound, kept, start.calls, net.calls, begun)
    && forall s | s in net.open :: Ground(h, start, begun, s, net.open[s])
  }

  ghost predicate Ground(h: Host, start: Net, begun: Listeners, s: Socket, endpoint: string) {
    || (s in start.open && endpoint == start.open[s])
    || exists n :: n in begun && begun[n].socket == s && endpoint == Endpoint(h, begun[n])
  }

  lemma GroundsStart(h: Host, net: Net, bound: Specs, kept: Listeners)
    ensures Grounds(h, net, net, bound, kept, map[])
  {
  }

  lemma GroundsNext(h: Host, start: Net, net: Net, bound: Specs, kept: Listeners, begun: Listeners, name: string)
    requires Grounds(h, start, net, bound, kept, begun) && name !in begun && name in bound && name !in kept
    requires Listen(h, net, bound[name].address).1.Bound?
    ensures Grounds(h, start, Listen(h, net, bound[name].address).0, bound, kept,
                    begun[name := Running(bound[name], net.calls)])
  {
    hide Blocked, HeldOutside;
    var after, r := Listen(h, net, bound[name].address).0, Running(bound[name], net.calls);
    var more := begun[name := r];
    forall s | s in after.open
      ensures Ground(h, start, more, s, after.open[s])
    {
      if s == net.calls {
        assert more[name].socket == s;
      } else {
        assert Ground(h, start, begun, s, net.open[s]);
        if n :| n in begun && begun[n].socket == s && net.open[s] == Endpoint(h, begun[n]) {
          assert more[n] == begun[n];
        }
      }
    }
    ReplayNext(h, bound, kept, start.calls, net.calls, begun, name);
  }

  lemma {:induction false} ReplayNext(h: Host, bound: Specs, kept: Listeners, from: nat, k: nat, begun: Listeners,
                                      name: string)
    requires Replay(h, bound, kept, from, k, begun) && name !in begun && from <= k && name in bound && name !in kept
    requires Worked(h, Running(bound[name], k))
    ensures Replay(h, bound, kept, from, k + 1, begun[name := Running(bound[name], k)])
  {
    hide Worked;
    var more := begun[name := Running(bound[name], k)];
    forall j | from <= j < k + 1
      ensures BoundAt(more, j)
    {
      if j == k {
        assert more[name].socket == j;
      } else {
        assert BoundAt(begun, j);
        var n :| n in begun && begun[n].socket == j;
        assert more[n] == begun[n];
      }
    }
  }

  /** Whatever excludes an endpoint was there before, or was bound on the way. */
  lemma WhoBlocks(h: Host, start: Net, net: Net, bound: Specs, kept: Listeners, begun: Listeners, name: string,
                  endpoint: string)
    requires Grounds(h, start, net, bound, kept, begun) && name !in begun && Blocked(h, net.open, endpoint)
    ensures InTheWay(h, bound, kept, start.calls, net.calls, start.open, name, endpoint)
  {
    hide Replay;
    var s :| s in net.open && Clash(h, net.open[s], endpoint);
    assert Ground(h, start, begun, s, net.open[s]);
    if !(s in start.open && net.open[s] == start.open[s]) {
      assert ClashesOne(h, begun, endpoint);
    }
  }

  /** A call that does not bind has a true reason. */
  lemma RefusalIsTrue(h: Host, start: Net, net: Net, bound: Specs, kept: Listeners, begun: Listeners, name: string)
    requires Grounds(h, start, net, bound, kept, begun) && name in bound && name !in begun && name !in kept
    ensures
      var outcome := Listen(h, net, bound[name].address).1;
      !outcome.Bound? ==> Truthful(h, bound, kept, BindError(name, outcome), start.calls, net.calls, start.open)
  {
    hide Grounds, Blocked, HeldOutside, InTheWay;
    var endpoint := if Fixed(bound[name]) then bound[name].address else h.env(net.calls).pick;
    if Blocked(h, net.open, endpoint) {
      WhoBlocks(h, start, net, bound, kept, begun, name, endpoint);
    }
    assert start.calls <= net.calls by { GroundsCount(h, start, net, bound, kept, begun); }
  }

  lemma GroundsCount(h: Host, start: Net, net: Net, bound: Specs, kept: Listeners, begun: Listeners)
    requires Grounds(h, start, net, bound, kept, begun)
    ensures start.calls <= net.calls
  {
  }

  /** What is bound side by side fits. */
  lemma BoundFits(h: Host, start: Net, net: Net, bound: Specs, kept: Listeners, begun: Listeners, leaving: set<Socket>)
    requires Consistent(h, start) && Consistent(h, net) && Part(start.open, net.open)
    requires Grounds(h, start, net, bound, kept, begun)
    requires Accounts(net.open, kept + begun, leaving) && Follow(begun, bound)
    requires forall n :: n in begun <==> n in bound && n !in kept
    ensures Fits(h, bound, kept, start.open)
  {
    forall a | a in bound && a !in kept && Fixed(bound[a])
      ensures !Blocked(h, start.open, bound[a].address) && !Rival(h, bound, kept, a)
    {
      var live := kept + begun;
      assert live[a] == begun[a] && begun[a].socket in Sockets(live);
      forall b | b in bound && b !in kept && b != a && Fixed(bound[b])
        ensures !Clash(h, bound[b].address, bound[a].address)
      {
        assert live[b] == begun[b] && begun[b].socket in Sockets(live);
      }
      forall s | s in start.open
        ensures !Clash(h, start.open[s], bound[a].address)
      {
        assert s < start.calls <= begun[a].socket;
      }
    }
  }

  lemma SuccessDecides(h: Host, start: Net, net: Net, bound: Specs, kept: Listeners, begun: Listeners,
                       leaving: set<Socket>)
    requires Consistent(h, start) && Consistent(h, net) && Grown(start, net)
    requires Grounds(h, start, net, bound, kept, begun)
    requires Accounts(net.open, kept + begun, leaving) && Follow(begun, bound)
    requires forall n :: n in begun <==> n in bound && n !in kept
    ensures Decided(h, start.calls, net.calls, bound, kept, start.open, true) && Evolves(start, net)
  {
    BoundFits(h, start, net, bound, kept, begun, leaving);
  }

  /** With nothing left over from a Shutdown and every port fixed, addresses fit that do not exclude each other. */
  lemma FitsIffDisjoint(h: Host, net: Net, running: Listeners, bound: Specs)
    requires Consistent(h, net) && Accounts(net.open, running, {}) && !Picks(bound)
    ensures Fits(h, bound, Kept(running, bound), Remaining(net.open, running, bound)) <==> Disjoint(h, bound)
  {
    var kept, open := Kept(running, bound), Remaining(net.open, running, bound);
    forall m | m in kept
      ensures kept[m].socket in open && open[kept[m].socket] == bound[m].address
    {
      StillOpen(net.open, running, bound, m);
    }
    if Fits(h, bound, kept, open) {
      forall a, b | a in bound && b in bound && a != b
        ensures !Clash(h, bound[a].address, bound[b].address)
      {
        DisjointPair(h, net, running, bound, a, b);
      }
    }
    if Disjoint(h, bound) {
      forall a, s | a in bound && a !in kept && s in open
        ensures !Clash(h, open[s], bound[a].address)
      {
        var m := WhoseSocket(net.open, running, bound, s);
      }
    }
  }

  lemma StillOpen(open: map<Socket, string>, running: Listeners, bound: Specs, m: string)
    requires Accounts(open, running, {}) && m in Kept(running, bound) && Fixed(bound[m])
    ensures running[m].socket in Remaining(open, running, bound)
    ensures Remaining(open, running, bound)[running[m].socket] == bound[m].address
  {
    assert running[m].socket in Sockets(running);
  }

  lemma WhoseSocket(open: map<Socket, string>, running: Listeners, bound: Specs, s: Socket) returns (m: string)
    requires Accounts(open, running, {}) && s in Remaining(open, running, bound) && !Picks(bound)
    ensures m in Kept(running, bound) && running[m].socket == s && open[s] == bound[m].address
  {
    var kept := Kept(running, bound);
    m :| m in running && running[m].socket == s;
    var stale := Only(running, Stale(running, bound));
    assert forall n | n in stale :: stale[n].socket in Sockets(stale);
    assert s !in Sockets(stale);
    assert m in kept || m in stale;
    assert m in kept && Fixed(bound[m]);
  }

  lemma DisjointPair(h: Host, net: Net, running: Listeners, bound: Specs, a: string, b: string)
    requires Consistent(h, net) && Accounts(net.open, running, {}) && !Picks(bound)
    requires Fits(h, bound, Kept(running, bound), Remaining(net.open, running, bound))
    requires a in bound && b in bound && a != b
    ensures !Clash(h, bound[a].address, bound[b].address)
  {
    var kept, open := Kept(running, bound), Remaining(net.open, running, bound);
    assert Fixed(bound[a]) && Fixed(bound[b]);
    if a in kept {
      StillOpen(net.open, running, bound, a);
    }
    if b in kept {
      StillOpen(net.open, running, bound, b);
    }
    if a !in kept && b !in kept {
      assert !Rival(h, bound, kept, b);
    } else if a !in kept {
      assert !Blocked(h, open, bound[a].address);
      assert !Clash(h, open[running[b].socket], bound[a].address);
    } else if b !in kept {
      assert !Blocked(h, open, bound[b].address);
    }
  }

  /** On a host where only equal addresses exclude each other, what compiling accepts is disjoint. */
  lemma CompiledIsDisjoint(h: Host, bound: Specs)
    requires DistinctAddresses(bound)
    requires forall a, b | a in bound && b in bound && Clash(h, bound[a].address, bound[b].address) ::
               bound[a].address == bound[b].address
    ensures Disjoint(h, bound)
  {
  }

  // ----- Why a rollback in quiet surroundings restores everything -----

  predicate PicksAmong(was: Listeners) {
    exists n :: n in was && !Fixed(was[n].spec)
  }

  /** From call `from` up to `to` nobody outside takes an address held in `open`, and no call fails by itself. */
  ghost predicate Quiet(h: Host, was: Listeners, open: map<Socket, string>, from: nat, to: nat) {
    forall k | from <= k < to ::
      && !h.env(k).fault
      && (forall s | s in open :: !HeldOutside(h, h.env(k).foreign, open[s]))
      && (PicksAmong(was) ==> QuietPick(h, open, from, to, k))
  }

  /** The address picked at call `k` is free, also of the addresses held in `open` and of other picks. */
  ghost predicate QuietPick(h: Host, open: map<Socket, string>, from: nat, to: nat, k: nat) {
    && !HeldOutside(h, h.env(k).foreign, h.env(k).pick) && !Blocked(h, open, h.env(k).pick)
    && forall j | from <= j < to && j != k :: !Clash(h, h.env(j).pick, h.env(k).pick)
  }

  /**
   Where the open sockets come from while listeners `names` are bound again and `todo` are
   still to do: never touched since `first`, bound again at a former address, or at an
   address the kernel picked in one of these calls.
   */
  ghost predicate Origins(h: Host, first: Net, start: Net, net: Net, was: Listeners, names: set<string>,
                          todo: set<string>) {
    forall s | s in net.open :: Origin(h, first, start.calls, net.calls, was, names, todo, s, net.open[s])
  }

  ghost predicate Origin(h: Host, first: Net, from: nat, to: nat, was: Listeners, names: set<string>, todo: set<string>,
                         s: Socket, endpoint: string) {
    || (s in first.open && endpoint == first.open[s] && forall n | n in names && n in was :: was[n].socket != s)
    || (exists m :: m in names && m !in todo && FormerAddress(first, was, m, endpoint))
    || (PicksAmong(was) && exists k :: from <= k < to && PickedIn(h, k, endpoint))
  }

  lemma OriginKept(h: Host, first: Net, from: nat, to: nat, was: Listeners, names: set<string>, todo: set<string>,
                   s: Socket, endpoint: string, name: string)
    requires Origin(h, first, from, to, was, names, todo, s, endpoint)
    ensures Origin(h, first, from, to + 1, was, names, todo - {name}, s, endpoint)
  {
  }

  predicate FormerAddress(first: Net, was: Listeners, m: string, endpoint: string) {
    m in was && was[m].socket in first.open && endpoint == first.open[was[m].socket]
  }

  predicate PickedIn(h: Host, k: nat, endpoint: string) {
    h.env(k).pick == endpoint
  }

  lemma NothingInTheWay(h: Host, first: Net, start: Net, net: Net, was: Listeners, leaving: set<Socket>,
                        names: set<string>, todo: set<string>, name: string, to: nat)
    requires Consistent(h, first) && Accounts(first.open, was, leaving)
    requires Origins(h, first, start, net, was, names, todo)
    requires name in todo && name in names && name in was && start.calls <= net.calls < to
    requires Quiet(h, was, first.open, start.calls, to)
    ensures !Blocked(h, net.open, if Fixed(was[name].spec) then was[name].spec.address else h.env(net.calls).pick)
  {
    var e := if Fixed(was[name].spec) then was[name].spec.address else h.env(net.calls).pick;
    assert !Fixed(was[name].spec) ==> PicksAmong(was);
    assert Fixed(was[name].spec) ==> e == first.open[was[name].socket];
    forall s | s in net.open
      ensures !Clash(h, net.open[s], e)
    {
      assert Origin(h, first, start.calls, net.calls, was, names, todo, s, net.open[s]);
      if k :| PicksAmong(was) && start.calls <= k < net.calls && PickedIn(h, k, net.open[s]) {
        assert QuietPick(h, first.open, start.calls, to, k);
        if Fixed(was[name].spec) {
          assert !Clash(h, first.open[was[name].socket], h.env(k).pick);
        } else {
          assert QuietPick(h, first.open, start.calls, to, net.calls);
        }
      } else if m :| m in names && m !in todo && FormerAddress(first, was, m, net.open[s]) {
        assert was[m].socket != was[name].socket;
        if !Fixed(was[name].spec) {
          assert QuietPick(h, first.open, start.calls, to, net.calls);
        }
      } else if !Fixed(was[name].spec) {
        assert QuietPick(h, first.open, start.calls, to, net.calls);
      }
    }
  }

  /** In quiet surroundings a stopped listener can always be bound again. */
  lemma RebindSucceeds(h: Host, first: Net, start: Net, net: Net, was: Listeners, leaving: set<Socket>,
                       names: set<string>, todo: set<string>, name: string, to: nat)
    requires Consistent(h, first) && Accounts(first.open, was, leaving)
    requires Origins(h, first, start, net, was, names, todo)
    requires name in todo && name in names && name in was && start.calls <= net.calls < to
    requires Quiet(h, was, first.open, start.calls, to)
    ensures Listen(h, net, was[name].spec.address).1.Bound?
  {
    hide Origins;
    NothingInTheWay(h, first, start, net, was, leaving, names, todo, name, to);
    if Fixed(was[name].spec) {
      assert was[name].socket in Sockets(was);
      assert !HeldOutside(h, h.env(net.calls).foreign, first.open[was[name].socket]);
    } else {
      assert QuietPick(h, first.open, start.calls, to, net.calls);
    }
  }

  lemma OriginsNext(h: Host, first: Net, start: Net, net: Net, was: Listeners, leaving: set<Socket>,
                    names: set<string>, todo: set<string>, name: string)
    requires Accounts(first.open, was, leaving) && Origins(h, first, start, net, was, names, todo)
    requires name in todo && name in names && name in was && start.calls <= net.calls
    ensures Origins(h, first, start, Listen(h, net, was[name].spec.address).0, was, names, todo - {name})
  {
    var (after, outcome) := Listen(h, net, was[name].spec.address);
    ListenOpens(h, net, was[name].spec.address);
    hide Listen;
    forall s | s in after.open
      ensures Origin(h, first, start.calls, after.calls, was, names, todo - {name}, s, after.open[s])
    {
      if outcome == Bound(s) {
        NewOrigin(h, first, start.calls, net.calls, was, leaving, names, todo, name, after.open[s]);
      } else {
        OriginKept(h, first, start.calls, net.calls, was, names, todo, s, net.open[s], name);
      }
    }
  }

  lemma NewOrigin(h: Host, first: Net, from: nat, to: nat, was: Listeners, leaving: set<Socket>, names: set<string>,
                  todo: set<string>, name: string, endpoint: string)
    requires Accounts(first.open, was, leaving) && name in names && name in was && from <= to
    requires endpoint == if Ephemeral(was[name].spec.address) then h.env(to).pick else was[name].spec.address
    ensures Origin(h, first, from, to + 1, was, names, todo - {name}, to, endpoint)
  {
    if Ephemeral(was[name].spec.address) {
      assert !Fixed(was[name].spec);
      assert PickedIn(h, to, endpoint);
    } else {
      assert FormerAddress(first, was, name, endpoint);
    }
  }

  lemma OnlyNext(live: Listeners, names: set<string>, todo: set<string>, name: string)
    requires name in todo && todo <= names && name in live
    ensures Sockets(Only(live, names - (todo - {name}))) == Sockets(Only(live, names - todo)) + {live[name].socket}
  {
    var more, few := Only(live, names - (todo - {name})), Only(live, names - todo);
    assert more[name] == live[name] && forall n | n in few :: more[n] == few[n];
    assert forall n | n in more :: n == name || n in few;
  }

  /** Of the listeners `names`, those not in `todo` run again with their spec or are lost; the rest is as it was. */
  ghost predicate Restored(running: Listeners, was: Listeners, names: set<string>, todo: set<string>,
                           lost: set<string>, since: nat) {
    && lost <= names - todo && running.Keys == was.Keys - lost
    && (forall n | n in running && n in names && n !in todo ::
          running[n].spec == was[n].spec && running[n].socket >= since)
    && (forall n | n in running && !(n in names && n !in todo) :: running[n] == was[n])
  }

  lemma NotYet(running: Listeners, was: Listeners, names: set<string>, todo: set<string>, lost: set<string>,
               since: nat, name: string)
    requires Restored(running, was, names, todo, lost, since) && name in todo && todo <= names <= was.Keys
    ensures name in running && running[name] == was[name]
  {
  }

  lemma RestoredNext(before: Listeners, was: Listeners, names: set<string>, todo: set<string>,
                     lost: set<string>, since: nat, name: string, bound: bool, socket: Socket)
    requires Restored(before, was, names, todo, lost, since)
    requires name in todo && todo <= names <= was.Keys && socket >= since
    ensures bound ==> Restored(before[name := Running(was[name].spec, socket)], was, names, todo - {name}, lost, since)
    ensures !bound ==> Restored(before - {name}, was, names, todo - {name}, lost + {name}, since)
  {
  }

  /** Bookkeeping for the promise that a quiet rollback loses nothing: it ends with call `to`. */
  ghost predicate QuietSoFar(h: Host, first: Net, start: Net, net: Net, was: Listeners, names: set<string>,
                             todo: set<string>, lost: set<string>, to: nat) {
    && start.calls <= net.calls && net.calls + |todo| == to
    && Origins(h, first, start, net, was, names, todo)
    && (Quiet(h, was, first.open, start.calls, to) ==> lost == {})
  }

  lemma QuietStep(h: Host, first: Net, start: Net, net: Net, was: Listeners, leaving: set<Socket>,
                  names: set<string>, todo: set<string>, lost: set<string>, name: string, to: nat)
    requires Consistent(h, first) && Accounts(first.open, was, leaving)
    requires QuietSoFar(h, first, start, net, was, names, todo, lost, to)
    requires name in todo && name in names && name in was
    ensures var (after, outcome) := Listen(h, net, was[name].spec.address);
            QuietSoFar(h, first, start, after, was, names, todo - {name},
                       if outcome.Bound? then lost else lost + {name}, to)
  {
    hide Listen, Quiet, Origins, Consistent, Accounts;
    ListenOpens(h, net, was[name].spec.address);
    assert |todo - {name}| == |todo| - 1;
    OriginsNext(h, first, start, net, was, leaving, names, todo, name);
    if Quiet(h, was, first.open, start.calls, to) {
      RebindSucceeds(h, first, start, net, was, leaving, names, todo, name, to);
    }
  }

  lemma QuietEnds(h: Host, first: Net, start: Net, net: Net, was: Listeners, names: set<string>, lost: set<string>,
                  to: nat)
    requires QuietSoFar(h, first, start, net, was, names, {}, lost, to)
    ensures net.calls == to && (Quiet(h, was, first.open, start.calls, to) ==> lost == {})
  {
  }

  lemma RebindStarts(h: Host, first: Net, net: Net, was: Listeners, leaving: set<Socket>, names: set<string>)
    requires Accounts(first.open, was, leaving) && Accounts(net.open, was - names, leaving)
    requires Part(net.open, first.open) && names <= was.Keys
    ensures QuietSoFar(h, first, net, net, was, names, names, {}, net.calls + |names|)
    ensures Restored(was, was, names, names, {}, net.calls)
    ensures Sockets(Only(was, names - names)) == {}
  {
    forall s, n | s in net.open && n in names && n in was
      ensures was[n].socket != s
    {
      if s !in leaving {
        var m :| m in was - names && (was - names)[m].socket == s;
        assert m in was && m != n;
      }
    }
  }

  lemma SameAccounts(before: map<Socket, string>, after: map<Socket, string>, live: Listeners, leaving: set<Socket>,
                     same: bool)
    requires Accounts(before, live, leaving) && (same ==> after == before)
    ensures same ==> Accounts(after, live, leaving)
  {
  }

  lemma AccountsDetach(open: map<Socket, string>, live: Listeners, leaving: set<Socket>)
    requires Accounts(open, live, leaving)
    ensures Accounts(open, map[], leaving + Sockets(live))
  {
  }

  lemma AccountsClose(h: Host, net: Net, live: Listeners, leaving: set<Socket>, closing: set<Socket>)
    requires Consistent(h, net) && Accounts(net.open, live, leaving) && closing <= leaving
    ensures Consistent(h, net.(open := net.open - closing))
    ensures Accounts(net.open - closing, live, leaving - closing)
  {
  }

  /** A running listener is either dropped or runs on. */
  lemma StaleOrKept(running: Listeners, bound: Specs)
    ensures var stopped := Only(running, Stale(running, bound));
            && stopped.Keys == Stale(running, bound) && Part(stopped, running) && stopped.Keys <= running.Keys
            && running - stopped.Keys == Kept(running, bound)
  {
  }

  /** Closing listeners closes exactly their sockets. */
  lemma ClosedExactly(before: map<Socket, string>, after: map<Socket, string>, running: Listeners, bound: Specs,
                      leaving: set<Socket>)
    requires Accounts(before, running, leaving) && Part(after, before)
    requires Accounts(after, running - Stale(running, bound), leaving)
    ensures after == Remaining(before, running, bound)
  {
    var stale := Only(running, Stale(running, bound));
    var kept := running - Stale(running, bound);
    assert forall m, n | m in stale && n in kept :: stale[m].socket != kept[n].socket;
    assert Sockets(stale) !! Sockets(kept);
    forall s | s in before
      ensures s in after <==> s !in Sockets(stale)
    {
      if s in Sockets(running) {
        var m :| m in running && running[m].socket == s;
        assert if m in Stale(running, bound) then stale[m].socket == s else kept[m].socket == s;
      }
    }
  }

  lemma RestoredFollows(running: Listeners, was: Listeners, names: set<string>, lost: set<string>, since: nat,
                        before: nat, bound: Specs)
    requires Restored(running, was, names, {}, lost, since) && before <= since && Follow(was, bound)
    ensures Restored(running, was, names, {}, lost, before) && Follow(running, bound)
    ensures was == map[] ==> running == map[]
  {
  }

  /** After a switch exactly the listeners asked for run; unchanged ones go on, and every replaced one drains. */
  ghost predicate Switched(was: Listeners, running: Listeners, bound: Specs, drained: set<Socket>,
                           draining: set<Socket>) {
    && running.Keys == bound.Keys && Follow(running, bound)
    && (forall n | n in was && n in bound && was[n].spec == bound[n] :: running[n] == was[n])
    && draining == drained + set n | n in was && !(n in bound && was[n].spec == bound[n]) :: was[n].socket
  }

  /**
   After a failed switch every stopped listener is bound again or lost. One call is made for each of
   them, after the call that failed: if those calls meet quiet surroundings, none is lost.
   */
  ghost predicate RolledBack(h: Host, was: Listeners, running: Listeners, bound: Specs, drained: set<Socket>,
                             draining: set<Socket>, bind: BindError, lost: set<string>, before: Net, after: Net) {
    var stale := Stale(was, bound);
    var from := after.calls - |stale|;
    && before.calls < from
    && Truthful(h, bound, Kept(was, bound), bind, before.calls, from - 1, Remaining(before.open, was, bound))
    && Restored(running, was, stale, {}, lost, from)
    && (Quiet(h, was, before.open, from, after.calls) ==> lost == {})
    && draining == drained + Sockets(Only(was, stale))
  }

  /**
   Which running listener is restarted: one whose address, TLS, server limits or, with TLS, minimum version differ, as
   a raised minimum version does for every TLS listener.
   */
  lemma RestartedIff(running: Listeners, a: seq<ListenerConfig>, i: nat, minTLS: int, server: ServerConfig,
                     b: seq<ListenerConfig>, j: nat, minTLS': int, server': ServerConfig)
    requires ListenersOk(a) && ListenersOk(b) && i < |a| && j < |b| && a[i].name == b[j].name
    requires Follow(running, SpecMap(a, minTLS, server)) && a[i].name in running
    ensures a[i].name in Stale(running, SpecMap(b, minTLS', server')) <==>
            || a[i].address != b[j].address || a[i].tls != b[j].tls || server != server'
            || (a[i].tls && minTLS != minTLS')
  {
    hide ListenersOk, SpecMap;
    SameSpecIff(a, i, minTLS, server, b, j, minTLS', server');
  }

  lemma SwitchedBy(was: Listeners, kept: Listeners, begun: Listeners, bound: Specs, drained: set<Socket>,
                   draining: set<Socket>)
    requires kept == Kept(was, bound) && Follow(begun, bound) && forall n :: n in begun <==> n in bound && n !in kept
    requires draining == drained + Sockets(Only(was, Stale(was, bound)))
    ensures Switched(was, kept + begun, bound, drained, draining)
  {
    var stale := Only(was, Stale(was, bound));
    assert forall n | n in was && !(n in bound && was[n].spec == bound[n]) :: n in stale && stale[n] == was[n];
  }

  lemma RolledBackBy(h: Host, was: Listeners, running: Listeners, bound: Specs, drained: set<Socket>,
                     draining: set<Socket>, bind: BindError, lost: set<string>, before: Net, mid: Net, after: Net)
    requires Only(was, Stale(was, bound)).Keys == Stale(was, bound)
    requires before.calls < mid.calls && after.calls == mid.calls + |Stale(was, bound)|
    requires Truthful(h, bound, Kept(was, bound), bind, before.calls, mid.calls - 1, Remaining(before.open, was, bound))
    requires Restored(running, was, Stale(was, bound), {}, lost, mid.calls)
    requires Quiet(h, was, before.open, mid.calls, after.calls) ==> lost == {}
    requires draining == drained + Sockets(Only(was, Stale(was, bound)))
    ensures RolledBack(h, was, running, bound, drained, draining, bind, lost, before, after)
  {
    hide Restored, Sockets, Truthful, Quiet, Only, Stale, Kept, Remaining;
  }

  lemma CloseGives(first: Net, net: Net, was: Listeners, bound: Specs, leaving: set<Socket>)
    requires Accounts(first.open, was, leaving) && Part(net.open, first.open)
    requires Accounts(net.open, was - Stale(was, bound), leaving)
    ensures net.open == Remaining(first.open, was, bound)
  {
    ClosedExactly(first.open, net.open, was, bound, leaving);
  }

  /**
   When a switch from `running` to `bound` succeeds: only if the listeners still to bind fit, and always then
   unless something outside is in the way. With nothing left over from a Shutdown and every port fixed, they fit
   exactly when no two of the addresses asked for exclude each other.
   */
  ghost predicate SwitchDecided(h: Host, net: Net, after: Net, running: Listeners, leaving: set<Socket>, bound: Specs,
                                ok: bool) {
    // After a failure, the last calls rebind the listeners that were stopped.
    var to := if ok then after.calls else after.calls - |Stale(running, bound)|;
    && Decided(h, net.calls, to, bound, Kept(running, bound), Remaining(net.open, running, bound), ok)
    && (leaving == {} && !Picks(bound) ==>
          && (ok ==> Disjoint(h, bound))
          && (Calm(h, net.calls, to, bound, Remaining(net.open, running, bound)) && Disjoint(h, bound) ==> ok))
  }

  lemma SwitchDecidedBy(h: Host, net: Net, mid: Net, after: Net, running: Listeners, leaving: set<Socket>,
                        bound: Specs, ok: bool)
    requires Consistent(h, net) && Accounts(net.open, running, leaving)
    requires Decided(h, net.calls, mid.calls, bound, Kept(running, bound), Remaining(net.open, running, bound), ok)
    requires after.calls == mid.calls + if ok then 0 else |Stale(running, bound)|
    ensures SwitchDecided(h, net, after, running, leaving, bound, ok)
  {
    hide Consistent, Accounts, Calm, Fits, Disjoint, Picks, Kept, Remaining, Stale;
    if leaving == {} && !Picks(bound) {
      FitsIffDisjoint(h, net, running, bound);
    }
  }
}
