/** The server: listeners, the active snapshot, and the ACME task (server.go). */
module Gateway {
  import opened Wrappers
  import opened Hosts
  import opened Certificates
  import opened Snapshots
  import opened Sites
  import opened Compile
  import Policies
  import opened Network
  import opened Binding

  /** `lost` are the stopped listeners that could not be bound again. */
  datatype ApplyError = CompileFailed(error: Error) | BindFailed(bind: BindError, lost: set<string>)

  datatype StartError = AlreadyRunning | CannotBind(bind: BindError)

  /** The listeners to bind: none while the configuration turns the gateway off. */
  function BoundBy(snap: Snapshot): Specs {
    if snap.config.disabled then map[] else snap.listeners
  }

  /** The listeners that a configuration asks for. */
  function Asked(config: Config, certs: Store, acme: Option<Manager>): Specs
    requires config.minTLS.Some?
  {
    if config.disabled then map[]
    else SpecMap(Snapshots.Listeners(config, certs, acme), config.minTLS.value, config.server)
  }

  lemma AskedIsBound(next: Snapshot, config: Config, certs: Store, acme: Option<Manager>, w: World)
    requires config.minTLS.Some? && next.config == config && IsSnapshot(next, ContextFor(config, certs, acme, w))
    ensures BoundBy(next) == Asked(config, certs, acme)
  {
    hide SpecMap, Dispatches, ServedOverTLS, Managed;
  }

  lemma NewManagerIsNext(config: Option<AcmeConfig>, w: World, prev: Snapshot, n: nat)
    requires prev.acme.Some? ==> prev.acme.value.id < n
    requires w.newManager.Some? ==> w.newManager.value == n
    ensures
      var r := ManagerFor(config, w, Some(prev));
      r.Some? && r.value.Some? ==> r.value.value.id <= n
  {
  }

  lemma SnapshotIsConfigured(snap: Snapshot, c: Context)
    requires IsSnapshot(snap, c)
    ensures PoliciesInForce(snap.config, snap.policies)
  {
  }

  /** The manager is kept while the ACME section is the same. */
  lemma SameManager(config: Config, w: World, prev: Snapshot, c: Context)
    requires IsSnapshot(prev, c) && config.acme == prev.config.acme
    ensures ManagerFor(config.acme, w, Some(prev)) == Some(prev.acme)
  {
    hide SitesOk, Dispatches, ServedOverTLS, DistinctAddresses, Managed, PoliciesInForce;
  }

  lemma SwitchedKeys(was: Listeners, running: Listeners, bound: Specs, drained: set<Socket>, draining: set<Socket>)
    requires Switched(was, running, bound, drained, draining)
    ensures running.Keys == bound.Keys
  {
    hide Follow, Sockets, Stale;
  }

  /** Other certificates, and the hosts that are managed with them. */
  lemma OtherCertificates(snap: Snapshot, c: Context, certs: Store)
    requires IsSnapshot(snap, c) && WellFormed(certs.current) && WellFormed(certs.stale)
    ensures IsSnapshot(snap.(certs := certs,
                             managedHosts := Managed(snap.tlsHosts, certs, snap.acme.Some?, c.isIP)), c)
    ensures BoundBy(snap.(certs := certs, managedHosts := Managed(snap.tlsHosts, certs, snap.acme.Some?, c.isIP)))
            == BoundBy(snap)
  {
    hide SitesOk, Dispatches, ServedOverTLS, DistinctAddresses, Managed;
  }

  // ----- What applying a configuration means -----

  /** The fields of a server. */
  datatype State = State(
    host: Host, isIP: string -> bool, net: Net, current: Snapshot, running: Listeners, started: bool,
    draining: set<Socket>, leaving: set<Socket>, issuer: Option<nat>, issuerOf: Option<Manager>, nextTask: nat,
    nextManager: nat, nextLimiter: nat, hostsOf: map<nat, set<string>>, alive: set<nat>, context: Context)

  ghost predicate SameTask(a: State, b: State) {
    b.issuer == a.issuer && b.issuerOf == a.issuerOf && b.alive == a.alive && b.nextTask == a.nextTask
  }

  /** What compiling sees on this server. */
  function SeenOn(s: State, world: World): World {
    world.(newManager := if world.newManager.Some? then Some(s.nextManager) else None, isIP := s.isIP)
  }

  /** What Apply promises of a configuration, the certificates that were loaded, and the error returned. */
  ghost predicate Applied(a: State, b: State, config: Config, world: World, certs: Store, r: Option<ApplyError>) {
    var w, prev := SeenOn(a, world), Some(a.current);
    && b.host == a.host && b.isIP == a.isIP && b.started == a.started && b.leaving == a.leaving
    // A socket that stays open keeps its address, so unchanged listeners keep even ports the kernel picked.
    && Evolves(a.net, b.net)
    // It fails to compile exactly when it should, and then nothing changes but the counters.
    && Sees(config, w, certs)
    && (Accepts(config, w, prev, certs) <==> !(r.Some? && r.value.CompileFailed?))
    && (r.Some? && r.value.CompileFailed? ==>
          b == a.(nextManager := b.nextManager, nextLimiter := b.nextLimiter))
    // A compiled configuration is active afterwards, and policies, limiters, the ACME manager and its task are kept
    // where nothing changed.
    && (r.None? ==>
          && b.current.config == config && b.current.certs == certs
          && b.current.acme == ManagerFor(config.acme, w, prev).value
          && IsSnapshot(b.current, ContextFor(config, certs, b.current.acme, w))
          && HasPolicies(b.current, config, prev, a.nextLimiter, b.nextLimiter)
          && PoliciesInForce(config, b.current.policies)
          && (b.issuerOf == a.issuerOf ==> SameTask(a, b))
          && (config.acme == a.current.config.acme ==> b.current.acme == a.current.acme && SameTask(a, b)))
    // On a stopped server that is all.
    && (!a.started && Accepts(config, w, prev, certs) ==>
          r.None? && b.net == a.net && b.running == a.running && b.draining == a.draining)
    && (a.started && Accepts(config, w, prev, certs) ==>
          Rebound(a, b, config, Asked(config, certs, ManagerFor(config.acme, w, prev).value), r))
  }

  /**
   What a started server does with a configuration that compiles. Binding succeeds exactly when it should. Then
   exactly the listeners asked for run, unchanged ones on their old sockets, and every replaced one drains. Otherwise
   the active snapshot stays; there is a true reason, and the stopped listeners are bound again or reported.
   */
  ghost predicate Rebound(a: State, b: State, config: Config, bound: Specs, r: Option<ApplyError>) {
    && SwitchDecided(a.host, a.net, b.net, a.running, a.leaving, bound, r.None?)
    && if r.None? then
         && Switched(a.running, b.running, bound, a.draining, b.draining)
         && b.running.Keys == if config.disabled then {} else b.current.listeners.Keys
       else
         && r.value.BindFailed? && b.current == a.current && SameTask(a, b) && b.hostsOf == a.hostsOf
         && RolledBack(a.host, a.running, b.running, bound, a.draining, b.draining, r.value.bind, r.value.lost,
                       a.net, b.net)
  }

  /** The part of Apply after compiling to `next`. */
  ghost predicate InstalledBy(a: State, b: State, next: Snapshot, r: Option<ApplyError>) {
    && b.host == a.host && b.isIP == a.isIP && b.started == a.started && b.leaving == a.leaving
    && Evolves(a.net, b.net) && b.nextManager == a.nextManager && b.nextLimiter == a.nextLimiter
    && (r.None? ==>
          && b.current == next && (b.issuerOf == a.issuerOf ==> SameTask(a, b))
          && (next.acme == a.current.acme ==> SameTask(a, b)))
    && if a.started then Rebound(a, b, next.config, BoundBy(next), r)
       else r.None? && b.net == a.net && b.running == a.running && b.draining == a.draining
  }

  lemma InstalledIsApplied(a: State, mid: State, b: State, config: Config, world: World, certs: Store, next: Snapshot,
                           r: Option<ApplyError>)
    requires mid == a.(nextManager := mid.nextManager, nextLimiter := mid.nextLimiter) && InstalledBy(mid, b, next, r)
    requires
      var w, prev := SeenOn(a, world), Some(a.current);
      && Sees(config, w, certs) && Accepts(config, w, prev, certs)
      && next.config == config && next.certs == certs && next.acme == ManagerFor(config.acme, w, prev).value
      && IsSnapshot(next, ContextFor(config, certs, next.acme, w))
      && HasPolicies(next, config, prev, a.nextLimiter, mid.nextLimiter)
      && PoliciesInForce(config, next.policies) && BoundBy(next) == Asked(config, certs, next.acme)
    requires config.acme == a.current.config.acme ==> next.acme == a.current.acme
    ensures Applied(a, b, config, world, certs, r)
  {
    hide Sees, IsSnapshot, HasPolicies, Evolves, SwitchDecided, Switched, RolledBack, PoliciesInForce, ContextFor;
    hide BoundBy, Asked, SeenOn, ManagerFor;
    assert config.minTLS.Some?;
    hide Accepts;
  }

  lemma NothingApplied(a: State, b: State, config: Config, world: World, certs: Store, error: Error)
    requires b == a.(nextManager := b.nextManager, nextLimiter := b.nextLimiter)
    requires Sees(config, SeenOn(a, world), certs) && !Accepts(config, SeenOn(a, world), Some(a.current), certs)
    ensures Applied(a, b, config, world, certs, Some(CompileFailed(error)))
  {
    hide Sees, Accepts, Evolves;
    StaysPut(a.net);
  }

  // ----- The other operations -----

  /** Start binds every listener, or none; which, is decided by what is open and asked for. */
  ghost predicate StartedBy(a: State, b: State, r: Option<StartError>) {
    var bound := BoundBy(a.current);
    && b.current == a.current && b.leaving == a.leaving && b.draining == a.draining && Evolves(a.net, b.net)
    && (a.started <==> r == Some(AlreadyRunning)) && (a.started ==> b == a)
    && (r.None? ==> b.started && b.running.Keys == bound.Keys)
    && (r.Some? && r.value.CannotBind? ==>
          && !b.started && b.running == map[] && b.net.open == a.net.open && SameTask(a, b)
          && b.net.calls > a.net.calls
          && Truthful(a.host, bound, map[], r.value.bind, a.net.calls, b.net.calls - 1, a.net.open))
    && (!a.started ==> SwitchDecided(a.host, a.net, b.net, map[], a.leaving, bound, r.None?))
  }

  /** The locked part of Shutdown detaches every listener and stops the task. */
  ghost predicate DetachedBy(a: State, b: State) {
    && !b.started && b.running == map[] && b.issuer.None? && b.alive == {}
    && b.leaving == a.leaving + Sockets(a.running)
    && b.net == a.net && b.current == a.current && b.draining == a.draining
  }

  /** The rest of Shutdown closes detached listeners. */
  ghost predicate ClosedBy(a: State, b: State, closing: set<Socket>) {
    b == a.(leaving := a.leaving - closing, net := a.net.(open := a.net.open - closing))
  }

  /** Refreshing reads the certificates again and reassigns ACME's hosts, or changes nothing if they do not load. */
  ghost predicate RefreshedBy(a: State, b: State, world: World, r: Option<LoadError>) {
    && b.net == a.net && b.running == a.running && b.started == a.started && b.draining == a.draining
    && b.leaving == a.leaving && SameTask(a, b) && (r.None? <==> Readable(a.current.config, world))
    && (r.Some? ==> b == a)
    && (r.None? ==>
          && Holding(a.current.config, world, b.current.certs)
          && b.current == a.current.(
               certs := b.current.certs,
               managedHosts := Managed(a.current.tlsHosts, b.current.certs, a.current.acme.Some?, a.isIP)))
  }

  class Server {
    const host: Host
    const isIP: string -> bool
    var net: Net
    var current: Snapshot
    var running: Listeners
    var started: bool
    var draining: set<Socket>  // replaced listeners finishing in-flight requests
    var leaving: set<Socket>   // detached by Shutdown, not yet closed
    var issuer: Option<nat>    // the task that runs the active manager's loop
    var issuerOf: Option<Manager>
    var nextTask: nat
    var nextManager: nat
    var nextLimiter: nat
    var hostsOf: map<nat, set<string>>  // what setHosts last gave each manager
    ghost var alive: set<nat>  // tasks started and not stopped
    ghost var context: Context // what the active snapshot was compiled in

    /** What holds whenever the lock is free. */
    ghost predicate Valid()
      reads this
    {
      Consistent(host, net) && Accounts(net.open, running, leaving) && Settled()
    }

    /** All of it but the sockets. */
    ghost predicate Settled()
      reads this
    {
      InForce() && (!started ==> running == map[]) && Follow(running, BoundBy(current))
    }

    /** The active snapshot, and the ACME task that goes with it. */
    ghost predicate InForce()
      reads this`started, this`current, this`context, this`issuer, this`issuerOf, this`alive, this`nextTask
      reads this`nextLimiter, this`nextManager, this`hostsOf
    {
      && IsSnapshot(current, context) && context.isIP == isIP && Policies.SoundTable(current.policies, nextLimiter)
      && IssuerFollows() && (current.acme.Some? ==> Told(current))
    }

    /** One issuing task, for the active manager, exactly while started. */
    ghost predicate IssuerFollows()
      reads this`started, this`current, this`issuer, this`issuerOf, this`alive, this`nextTask
    {
      && issuerOf == (if started then current.acme else None)
      && alive == (if issuer.Some? then {issuer.value} else {})
      && (issuer.Some? <==> issuerOf.Some?)
      && forall t | t in alive :: t < nextTask
    }

    /** The manager of a snapshot knows the hosts it manages. */
    ghost predicate Told(snap: Snapshot)
      requires snap.acme.Some?
      reads this`nextManager, this`hostsOf
    {
      var id := snap.acme.value.id;
      id < nextManager && id in hostsOf && hostsOf[id] == snap.managedHosts
    }

    twostate predicate SameIssuer()
      reads this
    {
      issuer == old(issuer) && issuerOf == old(issuerOf) && alive == old(alive) && nextTask == old(nextTask)
    }

    ghost function View(): State
      reads this
    {
      State(host, isIP, net, current, running, started, draining, leaving, issuer, issuerOf, nextTask, nextManager,
            nextLimiter, hostsOf, alive, context)
    }

    // ----- The ACME task -----

    method SyncIssuer()
      requires alive == (if issuer.Some? then {issuer.value} else {}) && (issuer.Some? <==> issuerOf.Some?)
      requires forall t | t in alive :: t < nextTask
      modifies this`issuer, this`issuerOf, this`nextTask, this`alive
      ensures IssuerFollows()
      ensures old(issuerOf) == issuerOf ==> SameIssuer()
    {
      var want := if started then current.acme else None;
      if issuerOf == want {
        return;
      }
      if issuer.Some? {
        alive := alive - {issuer.value};
        issuer, issuerOf := None, None;
      }
      if want.Some? {
        issuer, issuerOf := Some(nextTask), want;
        alive := alive + {nextTask};
        nextTask := nextTask + 1;
      }
    }

    method Commit(next: Snapshot, ghost c: Context)
      requires alive == (if issuer.Some? then {issuer.value} else {}) && (issuer.Some? <==> issuerOf.Some?)
      requires forall t | t in alive :: t < nextTask
      requires next.acme.Some? ==> next.acme.value.id < nextManager
      modifies this`issuer, this`issuerOf, this`nextTask, this`alive, this`hostsOf, this`current, this`context
      ensures current == next && context == c && IssuerFollows() && (next.acme.Some? ==> Told(next))
      ensures old(issuerOf) == issuerOf ==> SameIssuer()
    {
      if next.acme.Some? {
        hostsOf := hostsOf[next.acme.value.id := next.managedHosts];
      }
      current, context := next, c;
      SyncIssuer();
    }

    // ----- Binding and closing -----

    /** stopAccepting on one of the `live` listeners. */
    method StopAccepting(name: string, listener: Running, ghost live: Listeners)
      requires Consistent(host, net) && Accounts(net.open, live, leaving)
      requires name in live && live[name] == listener
      modifies this`net
      ensures Consistent(host, net) && Accounts(net.open, live - {name}, leaving)
      ensures Shrunk(old(net), net)
    {
      AccountsRemove(net.open, live, leaving, name);
      net := net.(open := net.open - {listener.socket});
    }

    /** stopAccepting for each of `closing`; `live` are the listeners bound so far. */
    method CloseAll(closing: Listeners, ghost live: Listeners)
      requires Consistent(host, net) && Accounts(net.open, live, leaving)
      requires forall n | n in closing :: n in live && live[n] == closing[n]
      modifies this`net
      ensures Consistent(host, net) && Accounts(net.open, live - closing.Keys, leaving)
      ensures Shrunk(old(net), net)
    {
      hide Consistent, Accounts, Shrunk;
      var todo := closing.Keys;
      NothingClosed(net, live, closing.Keys);
      while todo != {}
        invariant todo <= closing.Keys
        invariant Consistent(host, net) && Accounts(net.open, live - (closing.Keys - todo), leaving)
        invariant Shrunk(old(net), net)
        decreases |todo|
      {
        var name :| name in todo;
        ghost var before := net;
        StopAccepting(name, closing[name], live - (closing.Keys - todo));
        OneMoreClosed(live, closing.Keys, todo, name);
        ShrunkTwice(old(net), before, net);
        todo := todo - {name};
      }
      assert closing.Keys - todo == closing.Keys;
    }

    /** Binds one listener next to those kept and those begun since `start`. */
    method BindOne(name: string, bound: Specs, begun: Listeners, ghost kept: Listeners, ghost start: Net)
      returns (outcome: Outcome, more: Listeners)
      requires Consistent(host, net) && Accounts(net.open, kept + begun, leaving)
      requires Grounds(host, start, net, bound, kept, begun)
      requires name in bound && name !in kept && name !in begun && Follow(begun, bound)
      requires forall n | n in begun :: n !in kept
      modifies this`net
      ensures Consistent(host, net) && Accounts(net.open, kept + more, leaving)
      ensures outcome.Bound? ==> Grounds(host, start, net, bound, kept, more)
      ensures Grown(old(net), net) && net.calls == old(net).calls + 1
      ensures Follow(more, bound) && more.Keys == if outcome.Bound? then begun.Keys + {name} else begun.Keys
      ensures !outcome.Bound? ==>
                Truthful(host, bound, kept, BindError(name, outcome), start.calls, net.calls - 1, start.open)
    {
      hide Accounts, Consistent, Listen, Grounds, Truthful;
      var spec := bound[name];
      RefusalIsTrue(host, start, net, bound, kept, begun, name);
      if Listen(host, net, spec.address).1.Bound? {
        GroundsNext(host, start, net, bound, kept, begun, name);
      }
      outcome := ListenFor(spec.address);
      more := begun;
      if outcome.Bound? {
        more := begun[name := Running(spec, outcome.socket)];
        AccountsBind(old(net).open, kept, begun, leaving, name, spec, outcome.socket, net.open[outcome.socket]);
      }
    }

    /** Binds one more listener, or gives up on all that were begun since `start`. */
    method BindNext(name: string, bound: Specs, begun: Listeners, ghost kept: Listeners, ghost start: Net)
      returns (more: Listeners, failure: Option<BindError>)
      requires Consistent(host, net) && Accounts(net.open, kept + begun, leaving)
      requires Grounds(host, start, net, bound, kept, begun) && Grown(start, net)
      requires Accounts(start.open, kept, leaving) && net.calls >= start.calls
      requires name in bound && name !in kept && name !in begun && Follow(begun, bound) && kept.Keys !! begun.Keys
      modifies this`net
      ensures failure.None? ==>
                && Consistent(host, net) && Accounts(net.open, kept + more, leaving)
                && Grounds(host, start, net, bound, kept, more) && Grown(start, net)
                && Follow(more, bound) && more.Keys == begun.Keys + {name} && net.calls >= start.calls
      ensures failure.Some? ==>
                && Consistent(host, net) && net.open == start.open && net.calls > start.calls
                && Truthful(host, bound, kept, failure.value, start.calls, net.calls - 1, start.open)
                && Decided(host, start.calls, net.calls, bound, kept, start.open, false) && Evolves(start, net)
    {
      hide Consistent, Accounts, Grown, Grounds, Truthful, Decided, Follow;
      ghost var before := net;
      var outcome;
      outcome, more := BindOne(name, bound, begun, kept, start);
      GrownTwice(start, before, net);
      if outcome.Bound? {
        return more, None;
      }
      FailureDecides(host, bound, kept, BindError(name, outcome), start.calls, net.calls - 1, start.open);
      GiveUp(more, kept, start);
      return more, Some(BindError(name, outcome));
    }

    /**
     Binds every listener of `bound` that does not run with its spec already. On the first
     failure the ones bound here are closed again. `kept` are the listeners that run on.
     */
    method BindMissing(bound: Specs, ghost kept: Listeners) returns (begun: Listeners, failure: Option<BindError>)
      requires Consistent(host, net) && Accounts(net.open, kept, leaving) && kept == Kept(running, bound)
      modifies this`net
      ensures Consistent(host, net) && net.calls >= old(net).calls
      ensures failure.None? ==> Follow(begun, bound) && (forall n :: n in begun <==> n in bound && n !in kept)
                                && Accounts(net.open, kept + begun, leaving)
      ensures failure.Some? ==>
                && net.open == old(net).open && net.calls > old(net).calls
                && Truthful(host, bound, kept, failure.value, old(net).calls, net.calls - 1, old(net).open)
      ensures Decided(host, old(net).calls, net.calls, bound, kept, old(net).open, failure.None?)
      ensures Evolves(old(net), net)
    {
      hide *;
      ghost var start := net;
      var todo := bound.Keys;
      NoneBegun(bound, kept);
      StaysPut(net);
      begun, failure := map[], None;
      assert kept + begun == kept;
      GrownNot(net);
      FollowNone(bound);
      GroundsStart(host, net, bound, kept);
      while todo != {}
        invariant todo <= bound.Keys && Follow(begun, bound) && net.calls >= start.calls && failure.None?
        invariant Begun(begun, bound, todo, kept)
        invariant Consistent(host, net) && Accounts(net.open, kept + begun, leaving) && Grown(start, net)
        invariant Grounds(host, start, net, bound, kept, begun)
        decreases |todo|
      {
        var name :| name in todo;
        BegunNext(begun, bound, todo, kept, name);
        ghost var left := todo;
        todo := todo - {name};
        KeptIff(running, bound, name);
        if name in running && running[name].spec == bound[name] {
          continue;
        }
        ghost var before := begun;
        begun, failure := BindNext(name, bound, begun, kept, start);
        if failure.Some? {
          return;
        }
        BegunOneMore(before, begun, bound, left, kept, name);
      }
      AllBegun(begun, bound, kept);
      SuccessDecides(host, start, net, bound, kept, begun, leaving);
    }

    /** Closes the listeners that this call bound; what was bound before it is left as it was. */
    method GiveUp(begun: Listeners, ghost kept: Listeners, ghost first: Net)
      requires Consistent(host, net) && Accounts(net.open, kept + begun, leaving) && kept.Keys !! begun.Keys
      requires Grown(first, net) && Accounts(first.open, kept, leaving)
      modifies this`net
      ensures Consistent(host, net) && net.open == first.open && net.calls == old(net).calls
    {
      CloseAll(begun, kept + begun);
      MergeMinus(kept, begun);
      SameSockets(first.open, net.open, kept, leaving);
    }

    method ListenFor(address: string) returns (outcome: Outcome)
      requires Consistent(host, net)
      modifies this`net
      ensures Consistent(host, net) && (net, outcome) == Listen(host, old(net), address)
      ensures net.calls == old(net).calls + 1
      ensures outcome.Bound? ==> var s := outcome.socket;
                && s == old(net).calls && s !in old(net).open
                && s in net.open && net.open == old(net).open[s := net.open[s]]
                && (Ephemeral(address) || net.open[s] == address)
      ensures !outcome.Bound? ==> net.open == old(net).open
    {
      ListenKeepsConsistent(host, net, address);
      var result := Listen(host, net, address);
      net := result.0;
      outcome := result.1;
    }

    // ----- Rolling back -----

    /** Hands a replaced listener to the background drain. */
    method Drain(listener: Running)
      modifies this`draining
      ensures draining == old(draining) + {listener.socket}
    {
      draining := draining + {listener.socket};
    }

    /** Binds one stopped listener again, or drops it. */
    method RebindOne(name: string, ghost todo: set<string>, ghost was: Listeners) returns (bound: bool)
      requires Consistent(host, net) && Accounts(net.open, running - todo, leaving)
      requires name in todo && name in running && name in was && was[name] == running[name]
      modifies this`net, this`running, this`draining
      ensures Consistent(host, net) && Accounts(net.open, running - (todo - {name}), leaving)
      ensures draining == old(draining) + {was[name].socket}
      ensures net == Listen(host, old(net), was[name].spec.address).0 && net.calls == old(net).calls + 1
      ensures Evolves(old(net), net)
      ensures bound <==> Listen(host, old(net), was[name].spec.address).1.Bound?
      ensures bound ==> running == old(running)[name := Running(was[name].spec, old(net).calls)]
      ensures !bound ==> running == old(running) - {name}
    {
      hide Consistent, Accounts, Listen;
      var old_ := running[name];
      ghost var live := running - todo;
      var outcome := ListenFor(old_.spec.address);
      Drain(old_);
      bound := outcome.Bound?;
      if bound {
        AccountsAdd(old(net).open, live, leaving, name, Running(old_.spec, outcome.socket), net.open[outcome.socket]);
        running := running[name := Running(old_.spec, outcome.socket)];
        assert running - (todo - {name}) == live[name := running[name]];
      } else {
        running := running - {name};
        assert running - (todo - {name}) == live;
      }
    }

    /** rebindLocked: `first` is the network when Apply began. */
    method Rebind(names: set<string>, ghost first: Net) returns (lost: set<string>)
      requires Consistent(host, net) && Accounts(net.open, running - names, leaving) && names <= running.Keys
      requires Consistent(host, first) && Accounts(first.open, running, leaving) && Part(net.open, first.open)
      modifies this`net, this`running, this`draining
      ensures Consistent(host, net) && Accounts(net.open, running, leaving)
      ensures Restored(running, old(running), names, {}, lost, old(net).calls)
      ensures draining == old(draining) + Sockets(Only(old(running), names))
      ensures net.calls == old(net).calls + |names| && Evolves(old(net), net)
      ensures Quiet(host, old(running), first.open, old(net).calls, net.calls) ==> lost == {}
    {
      hide Consistent, Accounts, Listen, Quiet, Origins, Restored, Only, Sockets, QuietSoFar, Evolves;
      ghost var was, start, end := running, net, net.calls + |names|;
      StaysPut(net);
      var todo := names;
      lost := {};
      RebindStarts(host, first, net, was, leaving, names);
      while todo != {}
        invariant todo <= names && Restored(running, was, names, todo, lost, start.calls)
        invariant Consistent(host, net) && Accounts(net.open, running - todo, leaving)
        invariant draining == old(draining) + Sockets(Only(was, names - todo))
        invariant QuietSoFar(host, first, start, net, was, names, todo, lost, end) && net.calls >= start.calls
        invariant Evolves(start, net)
        decreases |todo|
      {
        var name :| name in todo;
        ghost var before, socket, previous := running, net.calls, net;
        QuietStep(host, first, start, net, was, leaving, names, todo, lost, name, end);
        OnlyNext(was, names, todo, name);
        NotYet(running, was, names, todo, lost, start.calls, name);
        var bound := RebindOne(name, todo, was);
        EvolvesTwice(start, previous, net);
        RestoredNext(before, was, names, todo, lost, start.calls, name, bound, socket);
        if !bound {
          lost := lost + {name};
        }
        todo := todo - {name};
      }
      QuietEnds(host, first, start, net, was, names, lost, end);
      assert running - todo == running && names - todo == names;
    }

    // ----- Operations -----

    /** New: a stopped server with a compiled configuration. */
    constructor (host: Host, isIP: string -> bool, snap: Snapshot, limiters: nat, ghost c: Context)
      requires IsSnapshot(snap, c) && Policies.SoundTable(snap.policies, limiters)
      requires c.isIP == isIP
      ensures Valid() && !started && current == snap && net.open == map[] && draining == {} && leaving == {}
      ensures this.host == host && this.isIP == isIP
    {
      this.host, this.isIP := host, isIP;
      net := Net(map[], 0);
      running, started, draining, leaving := map[], false, {}, {};
      issuer, issuerOf, nextTask, alive := None, None, 0, {};
      nextManager := if snap.acme.Some? then snap.acme.value.id + 1 else 0;
      hostsOf := if snap.acme.Some? then map[snap.acme.value.id := snap.managedHosts] else map[];
      nextLimiter := limiters;
      current, context := snap, c;
    }

    /** What compiling meets: the world, with the next manager's number and the server's notion of IPs. */
    function Seen(world: World): (seen: World)
      reads this
      ensures seen == SeenOn(View(), world)
    {
      world.(newManager := if world.newManager.Some? then Some(nextManager) else None, isIP := isIP)
    }

    /** Apply: switch to a configuration, or keep the active one. `certs` are the certificates that were loaded. */
    method Apply(config: Config, world: World) returns (r: Option<ApplyError>, ghost certs: Store)
      requires Valid()
      modifies this
      ensures Valid() && Applied(old(View()), View(), config, world, certs, r)
    {
      hide Accounts, Consistent, IsSnapshot, Accepts, ManagerFor, Sees, Applied, InstalledBy;
      hide Policies.SoundTable, Policies.Compiles, Policies.Carried, BoundBy, Asked, Follow, PoliciesInForce;
      ghost var a, w := View(), Seen(world);
      var compiled, limiters;
      compiled, limiters, certs := Compile.Compile(config, Seen(world), Some(current), nextLimiter);
      Policies.SoundTableGrows(current.policies, nextLimiter, limiters);
      nextManager, nextLimiter := nextManager + 1, limiters;
      if compiled.Err? {
        NothingApplied(a, View(), config, world, certs, compiled.error);
        return Some(CompileFailed(compiled.error)), certs;
      }
      var next := compiled.value;
      ghost var c := ContextFor(config, certs, next.acme, w);
      NewManagerIsNext(config.acme, w, current, a.nextManager);
      AskedIsBound(next, config, certs, next.acme, w);
      SnapshotIsConfigured(next, c);
      if config.acme == current.config.acme {
        SameManager(config, w, current, context);
      }
      ghost var mid := View();
      r := Install(next, c);
      InstalledIsApplied(a, mid, View(), config, world, certs, next, r);
    }

    /** The part of applyLocked after compiling. */
    method Install(next: Snapshot, ghost c: Context) returns (r: Option<ApplyError>)
      requires Valid() && IsSnapshot(next, c) && c.isIP == isIP && Policies.SoundTable(next.policies, nextLimiter)
      requires next.acme.Some? ==> next.acme.value.id < nextManager
      modifies this
      ensures Valid() && InstalledBy(old(View()), View(), next, r)
    {
      hide Accounts, Consistent, IsSnapshot, Switched, RolledBack, SwitchDecided, Evolves, Policies.SoundTable;
      ghost var was, drained := running, draining;
      StaysPut(net);
      if !started {
        Commit(next, c);
        FollowNone(BoundBy(next));
        return None;
      }
      r := Switch(next, c);
      if r.None? {
        SwitchedKeys(was, running, BoundBy(next), drained, draining);
      }
    }

    /** Stops accepting on the listeners that `bound` drops or changes. */
    method StopChanged(bound: Specs) returns (stopped: Listeners)
      requires Consistent(host, net) && Accounts(net.open, running, leaving)
      modifies this`net
      ensures stopped == Only(running, Stale(running, bound)) && stopped.Keys == Stale(running, bound)
      ensures Part(stopped, running) && stopped.Keys <= running.Keys && running - stopped.Keys == Kept(running, bound)
      ensures Consistent(host, net) && Accounts(net.open, Kept(running, bound), leaving)
      ensures Part(net.open, old(net).open) && net.calls == old(net).calls
      ensures net.open == Remaining(old(net).open, running, bound) && Evolves(old(net), net)
    {
      hide Accounts, Consistent, Remaining, Sockets;
      StaleOrKept(running, bound);
      stopped := Only(running, Stale(running, bound));
      CloseAll(stopped, running);
      CloseGives(old(net), net, running, bound, leaving);
    }

    /** The same on a started server. */
    method Switch(next: Snapshot, ghost c: Context) returns (r: Option<ApplyError>)
      requires Valid() && started && IsSnapshot(next, c) && c.isIP == isIP
      requires Policies.SoundTable(next.policies, nextLimiter)
      requires next.acme.Some? ==> next.acme.value.id < nextManager
      modifies this
      ensures Valid() && started && leaving == old(leaving)
      ensures nextManager == old(nextManager) && nextLimiter == old(nextLimiter)
      ensures r.None? ==>
                && current == next && Switched(old(running), running, BoundBy(next), old(draining), draining)
                && (issuerOf == old(issuerOf) ==> SameIssuer())
      ensures r.Some? ==>
                && r.value.BindFailed? && current == old(current) && SameIssuer() && hostsOf == old(hostsOf)
                && RolledBack(host, old(running), running, BoundBy(next), old(draining), draining, r.value.bind,
                              r.value.lost, old(net), net)
      ensures SwitchDecided(host, old(net), net, old(running), leaving, BoundBy(next), r.None?)
      ensures Evolves(old(net), net)
    {
      hide Accounts, Consistent, IsSnapshot, Sockets, Switched, RolledBack, SwitchDecided, Only;
      hide Truthful, Decided, Remaining, Stale, Kept, Follow, Policies.SoundTable, Evolves;
      ghost var first, was, drained := net, running, draining;
      var bound := BoundBy(next);
      ghost var kept := Kept(running, bound);
      var stopped := StopChanged(bound);
      ghost var closed := net;
      var begun, failure := BindMissing(bound, kept);
      ghost var mid := net;
      EvolvesTwice(first, closed, mid);
      if failure.Some? {
        r := RollBack(failure.value, stopped, first, bound);
        EvolvesTwice(first, mid, net);
      } else {
        Finish(next, c, stopped, kept, begun);
        SwitchedBy(was, kept, begun, bound, drained, draining);
        r := None;
      }
      SwitchDecidedBy(host, first, mid, net, was, leaving, bound, r.None?);
    }

    /** Gives up the switch to `bound`; `first` is the network when Apply began. */
    method RollBack(failure: BindError, stopped: Listeners, ghost first: Net, ghost bound: Specs)
      returns (r: Option<ApplyError>)
      requires Settled() && Consistent(host, net) && Accounts(net.open, running - stopped.Keys, leaving)
      requires stopped == Only(running, Stale(running, bound)) && stopped.Keys == Stale(running, bound)
      requires Part(stopped, running) && stopped.Keys <= running.Keys
      requires Consistent(host, first) && Accounts(first.open, running, leaving) && Part(net.open, first.open)
      requires first.calls < net.calls
      requires Truthful(host, bound, Kept(running, bound), failure, first.calls, net.calls - 1,
                        Remaining(first.open, running, bound))
      modifies this`net, this`running, this`draining
      ensures Valid() && r.Some? && r.value.BindFailed?
      ensures RolledBack(host, old(running), running, bound, old(draining), draining, r.value.bind, r.value.lost,
                         first, net)
      ensures net.calls == old(net).calls + |stopped.Keys| && Evolves(old(net), net)
    {
      hide Settled, Valid, Accounts, Consistent, Quiet, Restored, Truthful, RolledBack, Evolves;
      hide Part, Stale, Only, Kept, Remaining, Sockets;
      ghost var was, mid, drained := running, net, draining;
      var lost := Restore(stopped, first);
      r := Some(BindFailed(failure, lost));
      RolledBackBy(host, was, running, bound, drained, draining, failure, lost, first, mid, net);
    }

    /** Keeps the active snapshot and binds the stopped listeners again. */
    method Restore(stopped: Listeners, ghost first: Net) returns (lost: set<string>)
      requires Settled() && Consistent(host, net) && Accounts(net.open, running - stopped.Keys, leaving)
      requires Part(stopped, running) && stopped.Keys <= running.Keys
      requires Consistent(host, first) && Accounts(first.open, running, leaving) && Part(net.open, first.open)
      modifies this`net, this`running, this`draining
      ensures Valid()
      ensures Restored(running, old(running), stopped.Keys, {}, lost, old(net).calls)
      ensures draining == old(draining) + Sockets(Only(old(running), stopped.Keys))
      ensures net.calls == old(net).calls + |stopped.Keys| && Evolves(old(net), net)
      ensures Quiet(host, old(running), first.open, old(net).calls, net.calls) ==> lost == {}
    {
      hide Accounts, Consistent, Quiet, Restored, Evolves, InForce, BoundBy;
      ghost var was, mid := running, net;
      lost := Rebind(stopped.Keys, first);
      RestoredFollows(running, was, stopped.Keys, lost, mid.calls, mid.calls, BoundBy(current));
    }

    /** Makes the new snapshot active, with the listeners that run on and the new ones. */
    method Finish(next: Snapshot, ghost c: Context, stopped: Listeners, ghost kept: Listeners, begun: Listeners)
      requires Settled() && started && Consistent(host, net) && Accounts(net.open, kept + begun, leaving)
      requires IsSnapshot(next, c) && c.isIP == isIP && (next.acme.Some? ==> next.acme.value.id < nextManager)
      requires Policies.SoundTable(next.policies, nextLimiter)
      requires kept == Kept(running, BoundBy(next)) && Follow(begun, BoundBy(next))
      requires forall n :: n in begun <==> n in BoundBy(next) && n !in kept
      modifies this
      ensures Valid() && started && leaving == old(leaving)
      ensures nextManager == old(nextManager) && nextLimiter == old(nextLimiter) && net == old(net)
      ensures current == next && running == kept + begun && draining == old(draining) + Sockets(stopped)
      ensures issuerOf == old(issuerOf) ==> SameIssuer()
    {
      hide Accounts, Consistent, IsSnapshot, Sockets, Follow, Kept, BoundBy, Told, Policies.SoundTable;
      Commit(next, c);
      DrainAll(stopped);
      FollowBoth(kept, begun, BoundBy(next));
      running := Kept(running, BoundBy(next)) + begun;
    }

    method DrainAll(stopped: Listeners)
      modifies this`draining
      ensures draining == old(draining) + Sockets(stopped)
    {
      var todo := stopped.Keys;
      while todo != {}
        invariant todo <= stopped.Keys
        invariant draining == old(draining) + Sockets(Only(stopped, stopped.Keys - todo))
        decreases |todo|
      {
        var name :| name in todo;
        OnlyNext(stopped, stopped.Keys, todo, name);
        Drain(stopped[name]);
        todo := todo - {name};
      }
      assert Only(stopped, stopped.Keys - todo) == stopped;
    }

    /** Start binds every listener, or none; which, is decided by what is open and asked for. */
    method Start() returns (r: Option<StartError>)
      requires Valid()
      modifies this
      ensures Valid() && StartedBy(old(View()), View(), r)
    {
      hide Accounts, Consistent, IsSnapshot, Truthful, SwitchDecided, Policies.SoundTable, BoundBy, Evolves, Told;
      StaysPut(net);
      if started {
        return Some(AlreadyRunning);
      }
      var begun, failure := BindStopped();
      if failure.Some? {
        return Some(CannotBind(failure.value));
      }
      running := begun;
      started := true;
      SyncIssuer();
      return None;
    }

    /** Binds every listener of the active snapshot while none runs. */
    method BindStopped() returns (begun: Listeners, failure: Option<BindError>)
      requires Valid() && !started
      modifies this`net
      ensures failure.None? ==> begun.Keys == BoundBy(current).Keys && Follow(begun, BoundBy(current))
                                && Consistent(host, net) && Accounts(net.open, begun, leaving)
      ensures failure.Some? ==>
                && Valid() && net.open == old(net).open && net.calls > old(net).calls
                && Truthful(host, BoundBy(current), map[], failure.value, old(net).calls, net.calls - 1, old(net).open)
      ensures SwitchDecided(host, old(net), net, map[], leaving, BoundBy(current), failure.None?)
      ensures Evolves(old(net), net)
    {
      hide Accounts, Consistent, IsSnapshot, Truthful, Decided, SwitchDecided, Policies.SoundTable;
      ghost var none: Listeners, first := map[], net;
      assert Kept(running, BoundBy(current)) == none && running == none;
      begun, failure := BindMissing(BoundBy(current), none);
      assert Remaining(first.open, none, BoundBy(current)) == first.open;
      assert Kept(none, BoundBy(current)) == none;
      assert Stale(none, BoundBy(current)) == {};
      SwitchDecidedBy(host, first, net, net, none, leaving, BoundBy(current), failure.None?);
      SameAccounts(first.open, net.open, running, leaving, failure.Some?);
      assert none + begun == begun;
    }

    /** The locked part of Shutdown: detaches every listener and stops the issuer. */
    method Detach() returns (detached: Listeners)
      requires Valid()
      modifies this
      ensures Valid() && DetachedBy(old(View()), View()) && detached == old(running)
    {
      hide Accounts, Consistent, IsSnapshot, Policies.SoundTable, BoundBy, Told;
      FollowNone(BoundBy(current));
      AccountsDetach(net.open, running, leaving);
      detached := running;
      running, started := map[], false;
      leaving := leaving + Sockets(detached);
      SyncIssuer();
    }

    /** The rest of Shutdown closes some detached listeners, without the lock. */
    method CloseDetached(detached: set<Socket>)
      requires Valid() && detached <= leaving
      modifies this`net, this`leaving
      ensures Valid() && ClosedBy(old(View()), View(), detached)
    {
      hide Accounts, Consistent, IsSnapshot, Policies.SoundTable;
      AccountsClose(host, net, running, leaving, detached);
      net := net.(open := net.open - detached);
      leaving := leaving - detached;
    }

    /** refreshCertificatesLocked: reads the certificates again and reassigns ACME's hosts. */
    method Refresh(world: World) returns (r: Option<LoadError>)
      requires Valid()
      modifies this
      ensures Valid() && RefreshedBy(old(View()), View(), world, r)
    {
      hide Policies.SoundTable, IsSnapshot, Consistent, Accounts, Managed, BoundBy, Follow;
      var loaded := LoadCertificates(Files(current.config, world), world.source, world.now);
      if loaded.Err? {
        return Some(loaded.error);
      }
      var managed := ManagedHosts(current.tlsHosts, loaded.value, current.acme, isIP);
      var next := current.(certs := loaded.value, managedHosts := managed);
      OtherCertificates(current, context, loaded.value);
      Commit(next, context);
      return None;
    }
  }

  // ----- Whole runs -----

  datatype Operation =
    | DoApply(config: Config, world: World)
    | DoStart
    | DoDetach
    | DoClose(sockets: set<Socket>)
    | DoRefresh(world: World)

  /** One call, as specified. */
  ghost predicate Took(a: State, b: State, operation: Operation) {
    match operation
    case DoApply(config, world) => exists certs, r :: Applied(a, b, config, world, certs, r)
    case DoStart => exists r :: StartedBy(a, b, r)
    case DoDetach => DetachedBy(a, b)
    case DoClose(sockets) => ClosedBy(a, b, sockets * a.leaving)
    case DoRefresh(world) => exists r :: RefreshedBy(a, b, world, r)
  }

  /**
   Any sequence of calls, failed ones included, with Shutdown in its two steps: one socket per
   running listener (plus those Shutdown still has to close), and one ACME task, that of the
   active manager, exactly while the server is started.
   */
  method Run(s: Server, operations: seq<Operation>) returns (ghost states: seq<State>)
    requires s.Valid()
    modifies s
    ensures s.Valid() && |states| == |operations| + 1 && states[0] == old(s.View()) && states[|operations|] == s.View()
    ensures forall i | 0 <= i < |operations| :: Took(states[i], states[i + 1], operations[i])
  {
    hide Took, Server.Valid, Server.View;
    states := [s.View()];
    for i := 0 to |operations|
      invariant s.Valid() && |states| == i + 1 && states[0] == old(s.View()) && states[i] == s.View()
      invariant forall k | 0 <= k < i :: Took(states[k], states[k + 1], operations[k])
    {
      Operate(s, operations[i]);
      states := states + [s.View()];
    }
  }

  method Operate(s: Server, operation: Operation)
    requires s.Valid()
    modifies s
    ensures s.Valid() && Took(old(s.View()), s.View(), operation)
  {
    hide Applied, StartedBy, DetachedBy, ClosedBy, RefreshedBy, Server.Valid;
    match operation
    case DoApply(config, world) =>
      var r, certs := s.Apply(config, world);
      assert Applied(old(s.View()), s.View(), config, world, certs, r);
    case DoStart =>
      var r := s.Start();
      assert StartedBy(old(s.View()), s.View(), r);
    case DoDetach =>
      var detached := s.Detach();
    case DoClose(sockets) =>
      s.CloseDetached(sockets * s.leaving);
    case DoRefresh(world) =>
      var r := s.Refresh(world);
      assert RefreshedBy(old(s.View()), s.View(), world, r);
  }

  // ----- Does the server get in its own way? -----

  /**
   Apply and Start succeed whenever no two addresses asked for exclude each other (see SwitchDecided). Compiling
   sees to that on a host where, of the addresses asked for, only equal ones exclude each other: then no switch
   fails because of an address the server itself holds, even if listeners swap addresses.
   */
  lemma NoSelfConflict(h: Host, net: Net, after: Net, running: Listeners, bound: Specs, ok: bool)
    requires SwitchDecided(h, net, after, running, {}, bound, ok)
    requires DistinctAddresses(bound) && !Picks(bound)
    requires forall a, b | a in bound && b in bound && Clash(h, bound[a].address, bound[b].address) ::
               bound[a].address == bound[b].address
    requires Calm(h, net.calls, after.calls, bound, Remaining(net.open, running, bound))
    ensures ok
  {
    hide Calm, Remaining, Decided, Stale;
    CompiledIsDisjoint(h, bound);
    CalmSoFar(h, net.calls, after.calls, after.calls - |Stale(running, bound)|, bound,
              Remaining(net.open, running, bound));
  }

  function OverlappingListeners(): seq<ListenerConfig> {
    [ListenerConfig("a", ":80", false, true, []), ListenerConfig("b", "0.0.0.0:80", false, true, [])]
  }

  /** Compiling compares addresses as text: it admits two that exclude each other, and then no switch succeeds. */
  lemma CompileAdmitsOverlap(h: Host, minTLS: int, server: ServerConfig)
    requires Clash(h, ":80", "0.0.0.0:80")
    ensures
      var listeners := OverlappingListeners();
      && ListenersOk(listeners)
      && forall net, after, running, ok
           | SwitchDecided(h, net, after, running, {}, SpecMap(listeners, minTLS, server), ok) :: !ok
  {
    assert ":80"[1..] == "80" && "0.0.0.0:80"[8..] == "80" && "80"[0] != ':';
    assert !Ephemeral(":80") && !Ephemeral("0.0.0.0:80");
    var listeners := OverlappingListeners();
    assert ListenersOk(listeners);
    OverlapNeverBinds(h, listeners, minTLS, server);
  }

  lemma OverlapNeverBinds(h: Host, listeners: seq<ListenerConfig>, minTLS: int, server: ServerConfig)
    requires |listeners| == 2 && ListenersOk(listeners)
    requires !Ephemeral(listeners[0].address) && !Ephemeral(listeners[1].address)
    requires Clash(h, listeners[0].address, listeners[1].address)
    ensures forall net, after, running, ok
              | SwitchDecided(h, net, after, running, {}, SpecMap(listeners, minTLS, server), ok) :: !ok
  {
    hide SpecMap, Decided, Calm, Ephemeral;
    var bound := SpecMap(listeners, minTLS, server);
    SpecMapHolds(listeners, minTLS, server);
    var a, b := listeners[0].name, listeners[1].name;
    assert Fixed(bound[a]) && Fixed(bound[b]) && a != b;
    assert !Disjoint(h, bound);
    forall n | n in bound
      ensures Fixed(bound[n])
    {
      assert HasName(listeners, n);
    }
  }
}
