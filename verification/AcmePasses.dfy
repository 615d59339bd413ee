/** Which hosts a pass asks the CA for, and what stops it (acme.go:181-285). */
module AcmePasses {
  import opened Wrappers
  import opened Certificates
  import opened Acme

  /** How often a certificate was asked for. */
  function Attempts(log: seq<Event>, host: string): nat {
    if log == [] then 0
    else
      var e := log[|log| - 1];
      Attempts(log[..|log| - 1], host) + if IsAttempt(e) && e.host == host then 1 else 0
  }

  lemma AttemptsNext(log: seq<Event>, host: string, e: Event)
    ensures Attempts(log + [e], host) == Attempts(log, host) + if IsAttempt(e) && e.host == host then 1 else 0
  {
    assert (log + [e])[..|log|] == log;
  }

  // ----- Undisturbed passes -----

  lemma QuietVisitAttempts(s: State, host: string, now: int, t: Turn, next: int, h: string)
    requires Quiet(t)
    ensures Attempts(Visited(s, host, now, t, next).state.log, h)
            == Attempts(s.log, h) + if h == host && Wanted(s, host, now) then 1 else 0
  {
    hide RenewAt, Recorded, Attempts;
    AttemptsNext(s.log, h, Failed(host, now + t.took));
    if t.outcome.Some? {
      AttemptsNext(s.log, h, Obtained(host, now + t.took, RenewAt(t.outcome.value)));
    }
  }

  lemma StillWanted(s: State, s': State, host: string, now: int)
    requires SameAt(host, s, s')
    ensures Wanted(s, host, now) <==> Wanted(s', host, now)
  {
    hide RenewAt, MayTry;
  }

  /** An undisturbed pass asks once for each host that wants a certificate, and for no other. */
  lemma {:induction false} QuietPassAttempts(s: State, n: nat, now: int, turns: nat -> Turn, h: string)
    requires n <= |s.hosts| && (forall i, j | 0 <= i < j < |s.hosts| :: s.hosts[i] != s.hosts[j])
    requires forall i | 0 <= i < n :: Quiet(turns(i))
    ensures Attempts(Passed(s, n, now, turns).state.log, h)
            == Attempts(s.log, h) + if h in s.hosts[..n] && Wanted(s, h, now) then 1 else 0
  {
    hide Visited, Quiet, Served, SameAt, Wanted, Attempts;
    if n > 0 {
      var q, host := Passed(s, n - 1, now, turns), s.hosts[n - 1];
      QuietPassAttempts(s, n - 1, now, turns, h);
      QuietPassServes(s, n - 1, now, turns);
      QuietVisitAttempts(q.state, host, now, turns(n - 1), q.next, h);
      assert s.hosts[..n] == s.hosts[..n - 1] + [host];
      assert SameAt(host, s, q.state);
      StillWanted(s, q.state, host, now);
    }
  }

  /** A host whose certificate was found on disk is not asked for again before that is due for renewal. */
  lemma StoredIsUsed(s: State, hosts: seq<string>, reload: bool, stored: map<string, Certificate>, now: int,
                     turns: nat -> Turn, h: string)
    requires forall i, j | 0 <= i < j < |hosts| :: hosts[i] != hosts[j]
    requires forall i | 0 <= i < |hosts| :: Quiet(turns(i))
    requires h in hosts && h !in s.certs && h in stored && now < RenewAt(stored[h])
    ensures
      var s' := Stepped(s, Mutate(hosts, reload, stored));
      var p := Passed(s', |hosts|, now, turns);
      && Attempts(p.state.log, h) == Attempts(s'.log, h) && h in p.state.certs && p.state.certs[h] == stored[h]
  {
    hide RenewAt, Attempts, Passed, Quiet;
    var s' := Stepped(s, Mutate(hosts, reload, stored));
    assert hosts[..|hosts|] == hosts;
    QuietPassAttempts(s', |hosts|, now, turns, h);
    QuietPassServes(s', |hosts|, now, turns);
    var i :| 0 <= i < |hosts| && hosts[i] == h;
    assert Served(s'.hosts[i], now, turns(i), s', Passed(s', |hosts|, now, turns).state);
  }

  // ----- Cancelled passes -----

  /** Since then only reloads happened. */
  predicate OnlyReloads(before: seq<Event>, after: seq<Event>) {
    before <= after && forall k | |before| <= k < |after| :: after[k].Reload?
  }

  lemma OnlyReloadsTwice(a: seq<Event>, b: seq<Event>, c: seq<Event>)
    requires OnlyReloads(a, b) && OnlyReloads(b, c)
    ensures OnlyReloads(a, c)
  {
  }

  lemma {:induction false} StepsOnlyReload(s: State, steps: seq<Step>)
    ensures OnlyReloads(s.log, SteppedAll(s, steps).log)
  {
    if steps != [] {
      var before := SteppedAll(s, steps[..|steps| - 1]);
      StepsOnlyReload(s, steps[..|steps| - 1]);
      OnlyReloadsTwice(s.log, before.log, Stepped(before, steps[|steps| - 1]).log);
    }
  }

  /** A cancelled visit records neither a failure nor a certificate; it is cancelled only from outside. */
  lemma CancelledVisit(s: State, host: string, now: int, t: Turn, next: int)
    ensures
      var p := Visited(s, host, now, t, next);
      && (t.cancelled ==> p.cancelled) && (p.cancelled ==> t.cancelled || t.aborted)
      && (p.cancelled ==> OnlyReloads(s.log, p.state.log) && p.next == next)
  {
    hide SteppedAll, RenewAt, Recorded, OnlyReloads;
    var s1 := SteppedAll(s, t.early);
    var s2 := SteppedAll(s1, t.middle);
    StepsOnlyReload(s, t.early);
    StepsOnlyReload(s1, t.middle);
    StepsOnlyReload(s2, t.late);
    OnlyReloadsTwice(s.log, s1.log, s2.log);
    OnlyReloadsTwice(s.log, s2.log, SteppedAll(s2, t.late).log);
  }

  /** A cancelled pass ends the loop, and no later host of it is visited. */
  lemma CancelledRound(s: State, r: Round, n: nat)
    requires n < |s.hosts| && r.turns(n).cancelled
    ensures AfterRound(s, r).2 == Stopped
    ensures Passed(s, |s.hosts|, r.now, r.turns) == Passed(s, n + 1, r.now, r.turns)
  {
    hide Visited, SteppedAll;
    var p := Passed(s, n, r.now, r.turns);
    CancelledVisit(p.state, s.hosts[n], r.now, r.turns(n), p.next);
    CancelledForGood(s, n + 1, |s.hosts|, r.now, r.turns);
  }

  /** A wake-up is received once: the loop goes on for it without it, or because its time has come. */
  lemma WakeUpIsReceived(s: State, r: Round)
    ensures
      var (s', next, phase) := AfterRound(s, r);
      && (phase == Looping ==> !s'.wake || r.timerFirst || r.waited >= next)
      && (phase == Looping && r.waited < next ==> !s'.wake)
      && (phase == Parked ==> r.waited < next)
  {
    hide Passed, SteppedAll;
  }
}
