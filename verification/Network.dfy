/** What the operating system grants: sockets bound to addresses. */
module Network {
  import opened Wrappers
  import opened Snapshots

  type Socket = nat

  /** What one call to net.Listen meets: addresses held by others, other faults, the port the kernel picks. */
  datatype Step = Step(foreign: set<string>, fault: bool, pick: string)

  /** `overlap` says when two bound addresses exclude each other, such as ":80" and "0.0.0.0:80". */
  datatype Host = Host(overlap: (string, string) -> bool, env: nat -> Step)

  datatype Net = Net(open: map<Socket, string>, calls: nat)

  datatype Outcome = Bound(socket: Socket) | InUse | Taken | Fault

  predicate Clash(h: Host, a: string, b: string) {
    h.overlap(a, b) || h.overlap(b, a)
  }

  predicate Blocked(h: Host, open: map<Socket, string>, endpoint: string) {
    exists s :: s in open && Clash(h, open[s], endpoint)
  }

  predicate HeldOutside(h: Host, foreign: set<string>, endpoint: string) {
    exists f :: f in foreign && Clash(h, f, endpoint)
  }

  /** net.Listen. A port of 0 lets the kernel pick; a pick that somebody holds counts as a fault. */
  function Listen(h: Host, net: Net, address: string): (Net, Outcome) {
    var step := h.env(net.calls);
    var endpoint := if Ephemeral(address) then step.pick else address;
    var blocked, outside := Blocked(h, net.open, endpoint), HeldOutside(h, step.foreign, endpoint);
    var called := net.(calls := net.calls + 1);
    if step.fault || (Ephemeral(address) && (blocked || outside)) then (called, Fault)
    else if blocked then (called, InUse)
    else if outside then (called, Taken)
    else (called.(open := net.open[net.calls := endpoint]), Bound(net.calls))
  }

  /** One call opens at most one socket, the one it returns. */
  lemma ListenOpens(h: Host, net: Net, address: string)
    ensures
      var (after, outcome) := Listen(h, net, address);
      && after.calls == net.calls + 1
      && after.open == (if outcome.Bound?
                        then net.open[net.calls := if Ephemeral(address) then h.env(net.calls).pick else address]
                        else net.open)
      && (outcome.Bound? ==> outcome.socket == net.calls)
  {
    hide Blocked, HeldOutside;
  }

  /** Sockets are numbered by the call that bound them, and no two overlap. */
  ghost predicate Consistent(h: Host, net: Net) {
    && (forall s | s in net.open :: s < net.calls)
    && forall a, b | a in net.open && b in net.open && a != b :: !Clash(h, net.open[a], net.open[b])
  }

  lemma ListenKeepsConsistent(h: Host, net: Net, address: string)
    requires Consistent(h, net)
    ensures Consistent(h, Listen(h, net, address).0)
    ensures net.calls !in net.open
  {
    var endpoint := if Ephemeral(address) then h.env(net.calls).pick else address;
    assert forall s | s in net.open && Clash(h, net.open[s], endpoint) :: Blocked(h, net.open, endpoint);
  }

  // ----- Sockets of listeners -----

  /** A listener the server has bound (server.go:67-73). */
  datatype Running = Running(spec: ListenerSpec, socket: Socket)

  function Sockets(live: map<string, Running>): set<Socket> {
    set n | n in live :: live[n].socket
  }

  /** Exactly one open socket per listener in `live`, bound where its spec says, plus those in `leaving`. */
  ghost predicate Accounts(open: map<Socket, string>, live: map<string, Running>, leaving: set<Socket>) {
    && open.Keys == Sockets(live) + leaving
    && Sockets(live) !! leaving
    && (forall a, b | a in live && b in live && a != b :: live[a].socket != live[b].socket)
    && (forall n | n in live :: Ephemeral(live[n].spec.address) || open[live[n].socket] == live[n].spec.address)
  }

  lemma AccountsAdd(open: map<Socket, string>, live: map<string, Running>, leaving: set<Socket>, n: string,
                    r: Running, endpoint: string)
    requires Accounts(open, live, leaving) && n !in live && r.socket !in open
    requires Ephemeral(r.spec.address) || endpoint == r.spec.address
    ensures Accounts(open[r.socket := endpoint], live[n := r], leaving)
  {
    var more := live[n := r];
    assert Sockets(more) == Sockets(live) + {r.socket} by {
      assert more[n].socket == r.socket;
      assert forall m | m in live :: more[m] == live[m];
    }
  }

  lemma AccountsRemove(open: map<Socket, string>, live: map<string, Running>, leaving: set<Socket>, n: string)
    requires Accounts(open, live, leaving) && n in live
    ensures Accounts(open - {live[n].socket}, live - {n}, leaving)
  {
    var fewer := live - {n};
    assert Sockets(fewer) == Sockets(live) - {live[n].socket} by {
      assert forall m | m in live && m != n :: fewer[m] == live[m];
    }
  }
}
