/** When ACME certificates are requested, retried and renewed (acme.go:181-323). Times are nanoseconds. */
module Acme {
  import opened Wrappers
  import opened Certificates

  const MINUTE: int := 60_000_000_000
  const HOUR: int := 60 * MINUTE
  const CHECK_INTERVAL: int := 12 * HOUR
  const MIN_RETRY: int := 5 * MINUTE
  const MAX_RETRY: int := 12 * HOUR
  const RELOAD_RETRY: int := MINUTE

  function Earliest(a: int, b: int): int {
    if b < a then b else a
  }

  // ----- Renewal -----

  const TWO62: int := 0x4000_0000_0000_0000
  const TWO63: int := 0x8000_0000_0000_0000
  const TWO64: int := 0x1_0000_0000_0000_0000

  /** time.Time.Sub saturates at the largest duration. */
  function Lifetime(c: Certificate): int {
    var d := c.notAfter - c.notBefore;
    if d >= TWO63 then TWO63 - 1 else if d < -TWO63 then -TWO63 else d
  }

  /** Multiplication of durations wraps around. */
  function Wrap(x: int): int {
    (x + TWO63) % TWO64 - TWO63
  }

  /** Division truncates towards zero. */
  function Quotient(a: int, b: int): int
    requires b > 0
  {
    if a >= 0 then a / b else -((-a) / b)
  }

  function RenewAt(c: Certificate): int {
    c.notBefore + Quotient(Wrap(Lifetime(c) * 2), 3)
  }

  /** Renewal comes two thirds into the lifetime exactly for lifetimes below 2^62 ns (146 years). */
  lemma RenewAtTwoThirdsIff(c: Certificate)
    requires c.notBefore <= c.notAfter
    ensures RenewAt(c) == c.notBefore + (c.notAfter - c.notBefore) * 2 / 3 <==> c.notAfter - c.notBefore < TWO62
  {
    var d := Lifetime(c);
    if c.notAfter - c.notBefore < TWO62 {
      assert Wrap(d * 2) == d * 2;
    } else {
      assert Wrap(d * 2) == d * 2 - TWO64 < 0;
    }
  }

  // ----- Backoff -----

  datatype Failure = Failure(count: nat, failedAt: int, retryAt: int)

  function Pow2(n: nat): nat {
    if n == 0 then 1 else 2 * Pow2(n - 1)
  }

  /** How long to wait after the `count`-th failure in a row. */
  function Delay(count: nat): int
    requires count > 0
  {
    Earliest(MIN_RETRY * Pow2(if count - 1 < 10 then count - 1 else 10), MAX_RETRY)
  }

  /** The wait begins at five minutes and doubles with every failure in a row, up to twelve hours. */
  lemma DelayDoubles(count: nat)
    requires count > 0
    ensures Delay(1) == 300_000_000_000
    ensures Delay(count + 1) == if 2 * Delay(count) < 43_200_000_000_000 then 2 * Delay(count) else 43_200_000_000_000
  {
    assert Pow2(0) == 1 && Pow2(10) == 1024 by { Pow2Ten(); }
    if count - 1 < 10 {
      assert Pow2(count) == 2 * Pow2(count - 1);
    }
  }

  lemma Pow2Ten()
    ensures Pow2(10) == 1024
  {
    assert Pow2(4) == 16;
    assert Pow2(7) == 128;
  }

  function Recorded(f: Option<Failure>, now: int): Failure {
    var count := (if f.Some? then f.value.count else 0) + 1;
    Failure(count, now, now + Delay(count))
  }

  function Reloaded(f: Failure): Failure {
    f.(count := 0, retryAt := Earliest(f.retryAt, f.failedAt + RELOAD_RETRY))
  }

  // ----- History -----

  /** What happened to hosts: failed attempts, certificates with the time to renew them, and reloads. */
  datatype Event = Failed(host: string, at: int) | Obtained(host: string, at: int, renewAt: int) | Reload

  predicate IsAttempt(e: Event) {
    e.Failed? || e.Obtained?
  }

  function NoteEvent(f: Option<Failure>, host: string, e: Event): Option<Failure> {
    match e
    case Failed(h, at) => if h == host then Some(Recorded(f, at)) else f
    case Obtained(h, _, _) => if h == host then None else f
    case Reload => if f.Some? then Some(Reloaded(f.value)) else None
  }

  function NoteRenewal(r: Option<int>, host: string, e: Event): Option<int> {
    if e.Obtained? && e.host == host then Some(e.renewAt) else r
  }

  /** The failure record of a host after a history. */
  function FailureAfter(log: seq<Event>, host: string): Option<Failure> {
    if log == [] then None
    else NoteEvent(FailureAfter(log[..|log| - 1], host), host, log[|log| - 1])
  }

  /** When the certificate that was last obtained for a host is due for renewal. */
  function RenewalAfter(log: seq<Event>, host: string): Option<int> {
    if log == [] then None
    else NoteRenewal(RenewalAfter(log[..|log| - 1], host), host, log[|log| - 1])
  }

  predicate MayTry(f: Option<Failure>, now: int) {
    f.None? || now >= f.value.retryAt
  }

  predicate MayRenew(r: Option<int>, now: int) {
    r.None? || now >= r.value
  }

  /** After this history an attempt for the host may end at `at`. */
  predicate MayAttempt(log: seq<Event>, host: string, at: int) {
    MayTry(FailureAfter(log, host), at) && MayRenew(RenewalAfter(log, host), at)
  }

  /** Every attempt in the log came no sooner than its host might be tried again. */
  predicate Patient(log: seq<Event>) {
    forall j | 0 <= j < |log| && IsAttempt(log[j]) :: MayAttempt(log[..j], log[j].host, log[j].at)
  }

  lemma FailureAfterNext(log: seq<Event>, host: string, e: Event)
    ensures FailureAfter(log + [e], host) == NoteEvent(FailureAfter(log, host), host, e)
    ensures RenewalAfter(log + [e], host) == NoteRenewal(RenewalAfter(log, host), host, e)
  {
    assert (log + [e])[..|log|] == log;
  }

  lemma PatientNext(log: seq<Event>, e: Event)
    requires Patient(log) && (IsAttempt(e) ==> MayAttempt(log, e.host, e.at))
    ensures Patient(log + [e])
  {
    hide MayAttempt;
    var more := log + [e];
    forall j | 0 <= j < |more| && IsAttempt(more[j])
      ensures MayAttempt(more[..j], more[j].host, more[j].at)
    {
      assert more[..j] == if j < |log| then log[..j] else log;
    }
  }

  function Look(failures: map<string, Failure>, host: string): Option<Failure> {
    if host in failures then Some(failures[host]) else None
  }

  /** A certificate that was obtained is still there. */
  predicate Kept(certs: map<string, Certificate>, host: string, renewal: Option<int>) {
    renewal.Some? ==> host in certs && RenewAt(certs[host]) == renewal.value
  }

  /** Records and certificates are what the history says, and no attempt came before its host was due. */
  ghost predicate Sound(certs: map<string, Certificate>, failures: map<string, Failure>, log: seq<Event>) {
    Patient(log) && forall h :: Look(failures, h) == FailureAfter(log, h) && Kept(certs, h, RenewalAfter(log, h))
  }

  lemma SoundReload(certs: map<string, Certificate>, failures: map<string, Failure>, after: map<string, Failure>,
                    log: seq<Event>)
    requires Sound(certs, failures, log) && after.Keys == failures.Keys
    requires forall h | h in failures :: after[h] == Reloaded(failures[h])
    ensures Sound(certs, after, log + [Reload])
  {
    hide Patient, FailureAfter, RenewalAfter, Reloaded, Kept;
    PatientNext(log, Reload);
    forall h
      ensures Look(after, h) == FailureAfter(log + [Reload], h) && Kept(certs, h, RenewalAfter(log + [Reload], h))
    {
      FailureAfterNext(log, h, Reload);
      assert Look(failures, h) == FailureAfter(log, h) && Kept(certs, h, RenewalAfter(log, h));
    }
  }

  lemma SoundFailed(certs: map<string, Certificate>, failures: map<string, Failure>, log: seq<Event>, host: string,
                    at: int)
    requires Sound(certs, failures, log) && MayAttempt(log, host, at)
    ensures Sound(certs, failures[host := Recorded(Look(failures, host), at)], log + [Failed(host, at)])
  {
    hide Patient, FailureAfter, RenewalAfter, Recorded, MayAttempt, Kept;
    var e := Failed(host, at);
    assert Look(failures, host) == FailureAfter(log, host);
    PatientNext(log, e);
    var after := failures[host := Recorded(Look(failures, host), at)];
    forall h
      ensures Look(after, h) == FailureAfter(log + [e], h) && Kept(certs, h, RenewalAfter(log + [e], h))
    {
      FailureAfterNext(log, h, e);
      assert Look(failures, h) == FailureAfter(log, h) && Kept(certs, h, RenewalAfter(log, h));
    }
  }

  lemma SoundObtained(certs: map<string, Certificate>, failures: map<string, Failure>, log: seq<Event>, host: string,
                      at: int, c: Certificate)
    requires Sound(certs, failures, log) && MayAttempt(log, host, at)
    ensures Sound(certs[host := c], failures - {host}, log + [Obtained(host, at, RenewAt(c))])
  {
    hide Patient, FailureAfter, RenewalAfter, MayAttempt, RenewAt;
    var e := Obtained(host, at, RenewAt(c));
    PatientNext(log, e);
    forall h
      ensures Look(failures - {host}, h) == FailureAfter(log + [e], h)
      ensures Kept(certs[host := c], h, RenewalAfter(log + [e], h))
    {
      FailureAfterNext(log, h, e);
      assert Look(failures, h) == FailureAfter(log, h) && Kept(certs, h, RenewalAfter(log, h));
    }
  }

  // ----- What the manager does, as functions of its state -----

  /** `wake` is the channel of capacity one; `pending` counts setHosts calls that have mutated but not yet sent. */
  datatype State = State(
    hosts: seq<string>, certs: map<string, Certificate>, failures: map<string, Failure>,
    wake: bool, pending: nat, log: seq<Event>)

  const INITIAL := State([], map[], map[], false, 0, [])

  /** A step of another goroutine: half of a setHosts call. `stored` are the certificates found on disk. */
  datatype Step =
    | Mutate(hosts: seq<string>, reload: bool, stored: map<string, Certificate>)
    | Send

  /** What one host meets during a pass: other goroutines at three points, and how an attempt ends. */
  datatype Turn = Turn(
    early: seq<Step>, cancelled: bool,
    middle: seq<Step>,
    late: seq<Step>, outcome: Option<Certificate>, aborted: bool, took: nat)

  function ReloadedAll(failures: map<string, Failure>): map<string, Failure> {
    map h | h in failures :: Reloaded(failures[h])
  }

  /** Stored certificates fill in for hosts that have none. */
  function WithStored(certs: map<string, Certificate>, hosts: seq<string>,
                      stored: map<string, Certificate>): map<string, Certificate> {
    (map h | h in stored && h in hosts :: stored[h]) + certs
  }

  function Stepped(s: State, step: Step): State {
    match step
    case Mutate(hosts, reload, stored) =>
      State(hosts, WithStored(s.certs, hosts, stored), if reload then ReloadedAll(s.failures) else s.failures,
            s.wake, s.pending + 1, s.log + if reload then [Reload] else [])
    case Send => if s.pending > 0 then s.(wake := true, pending := s.pending - 1) else s
  }

  function SteppedAll(s: State, steps: seq<Step>): State {
    if steps == [] then s else Stepped(SteppedAll(s, steps[..|steps| - 1]), steps[|steps| - 1])
  }

  function Failing(s: State, host: string, at: int): State {
    s.(failures := s.failures[host := Recorded(Look(s.failures, host), at)], log := s.log + [Failed(host, at)])
  }

  function Issued(s: State, host: string, c: Certificate, at: int): State {
    s.(certs := s.certs[host := c], failures := s.failures - {host}, log := s.log + [Obtained(host, at, RenewAt(c))])
  }

  /** The state after visiting a host, the time to look again, and whether the pass is cancelled. */
  datatype Progress = Progress(state: State, next: int, cancelled: bool)

  function Attempted(s: State, host: string, now: int, t: Turn, next: int): Progress {
    var s' := SteppedAll(s, t.late);
    match t.outcome
    case Some(c) => Progress(Issued(s', host, c, now + t.took), Earliest(next, RenewAt(c)), false)
    case None =>
      if t.aborted then Progress(s', next, true)
      else
        var s'' := Failing(s', host, now + t.took);
        Progress(s'', Earliest(next, s''.failures[host].retryAt), false)
  }

  function Visited(s: State, host: string, now: int, t: Turn, next: int): Progress {
    var s1 := SteppedAll(s, t.early);
    if t.cancelled then Progress(s1, next, true)
    else if host in s1.certs && now < RenewAt(s1.certs[host]) then
      Progress(s1, Earliest(next, RenewAt(s1.certs[host])), false)
    else
      var s2 := SteppedAll(s1, t.middle);
      if host in s2.failures && now < s2.failures[host].retryAt then
        Progress(s2, Earliest(next, s2.failures[host].retryAt), false)
      else Attempted(s2, host, now, t, next)
  }

  /** A pass after its first n hosts. */
  function Passed(s: State, n: nat, now: int, turns: nat -> Turn): Progress
    requires n <= |s.hosts|
  {
    if n == 0 then Progress(s, now + CHECK_INTERVAL, false)
    else
      var p := Passed(s, n - 1, now, turns);
      if p.cancelled then p else Visited(p.state, s.hosts[n - 1], now, turns(n - 1), p.next)
  }

  /** One turn of the loop: a pass, the steps of others while it waits, and how the wait ends. */
  datatype Round = Round(now: int, turns: nat -> Turn, parked: seq<Step>, timerFirst: bool, waited: int)

  datatype Phase = Looping | Parked | Stopped

  /** The loop after a round: it goes on when it receives a wake-up or its timer has fired. */
  function AfterRound(s: State, r: Round): (State, int, Phase) {
    var p := Passed(s, |s.hosts|, r.now, r.turns);
    var s' := SteppedAll(p.state, r.parked);
    if p.cancelled then (s', p.next, Stopped)
    else if s'.wake && !r.timerFirst then (s'.(wake := false), p.next, Looping)
    else if r.waited < p.next then (s', p.next, Parked)
    else (s', p.next, Looping)
  }

  function AfterRounds(s: State, rounds: seq<Round>): (State, int, Phase) {
    if rounds == [] then (s, 0, Looping)
    else
      var before := AfterRounds(s, rounds[..|rounds| - 1]);
      if before.2 == Looping then AfterRound(before.0, rounds[|rounds| - 1]) else before
  }

  // ----- Records are true to history -----

  ghost predicate SoundState(s: State) {
    Sound(s.certs, s.failures, s.log)
  }

  lemma StepKeepsSound(s: State, step: Step)
    requires SoundState(s)
    ensures SoundState(Stepped(s, step))
  {
    hide Patient, FailureAfter, RenewalAfter, Reloaded, RenewAt;
    if step.Mutate? {
      if step.reload {
        SoundReload(s.certs, s.failures, ReloadedAll(s.failures), s.log);
      } else {
        assert s.log + [] == s.log;
      }
    }
  }

  /** Others obtain no certificates. */
  lemma {:induction false} StepsKeepRenewal(s: State, steps: seq<Step>, host: string)
    ensures RenewalAfter(SteppedAll(s, steps).log, host) == RenewalAfter(s.log, host)
  {
    hide FailureAfter;
    if steps != [] {
      var before, step := SteppedAll(s, steps[..|steps| - 1]), steps[|steps| - 1];
      StepsKeepRenewal(s, steps[..|steps| - 1], host);
      FailureAfterNext(before.log, host, Reload);
      assert before.log + [] == before.log;
    }
  }

  lemma {:induction false} StepsKeepSound(s: State, steps: seq<Step>)
    requires SoundState(s)
    ensures SoundState(SteppedAll(s, steps))
  {
    hide SoundState, Stepped;
    if steps != [] {
      StepsKeepSound(s, steps[..|steps| - 1]);
      StepKeepsSound(SteppedAll(s, steps[..|steps| - 1]), steps[|steps| - 1]);
    }
  }

  /** Others only ever bring a retry forward. */
  lemma {:induction false} StepsBringForward(s: State, steps: seq<Step>, host: string, now: int)
    requires MayTry(Look(s.failures, host), now)
    ensures MayTry(Look(SteppedAll(s, steps).failures, host), now)
  {
    if steps != [] {
      StepsBringForward(s, steps[..|steps| - 1], host, now);
    }
  }

  lemma VisitKeepsSound(s: State, host: string, now: int, t: Turn, next: int)
    requires SoundState(s)
    ensures SoundState(Visited(s, host, now, t, next).state)
  {
    hide Patient, FailureAfter, RenewalAfter, SteppedAll, RenewAt, Recorded, MayTry;
    var s1 := SteppedAll(s, t.early);
    var s2 := SteppedAll(s1, t.middle);
    var s3 := SteppedAll(s2, t.late);
    StepsKeepSound(s, t.early);
    StepsKeepSound(s1, t.middle);
    StepsKeepSound(s2, t.late);
    if !(host in s1.certs && now < RenewAt(s1.certs[host])) && MayTry(Look(s2.failures, host), now) {
      StepsKeepRenewal(s1, t.middle, host);
      StepsKeepRenewal(s2, t.late, host);
      StepsBringForward(s2, t.late, host, now);
      assert Kept(s1.certs, host, RenewalAfter(s1.log, host)) && Look(s3.failures, host) == FailureAfter(s3.log, host);
      Later(Look(s3.failures, host), now, now + t.took);
      assert MayAttempt(s3.log, host, now + t.took);
      SoundFailed(s3.certs, s3.failures, s3.log, host, now + t.took);
      if t.outcome.Some? {
        SoundObtained(s3.certs, s3.failures, s3.log, host, now + t.took, t.outcome.value);
      }
    }
    TryOrNot(s2.failures, host, now);
  }

  lemma Later(f: Option<Failure>, now: int, later: int)
    requires MayTry(f, now) && now <= later
    ensures MayTry(f, later)
  {
  }

  lemma TryOrNot(failures: map<string, Failure>, host: string, now: int)
    ensures MayTry(Look(failures, host), now) <==> !(host in failures && now < failures[host].retryAt)
  {
  }

  lemma {:induction false} PassKeepsSound(s: State, n: nat, now: int, turns: nat -> Turn)
    requires SoundState(s) && n <= |s.hosts|
    ensures SoundState(Passed(s, n, now, turns).state)
  {
    hide SoundState, Visited;
    if n > 0 {
      PassKeepsSound(s, n - 1, now, turns);
      var p := Passed(s, n - 1, now, turns);
      VisitKeepsSound(p.state, s.hosts[n - 1], now, turns(n - 1), p.next);
    }
  }

  /** Whatever the loop and other goroutines do, records say what happened and nothing was tried too soon. */
  lemma {:induction false} RunKeepsSound(s: State, rounds: seq<Round>)
    requires SoundState(s)
    ensures SoundState(AfterRounds(s, rounds).0)
  {
    hide Passed, SteppedAll, Sound;
    if rounds != [] {
      var n := |rounds| - 1;
      RunKeepsSound(s, rounds[..n]);
      var before, r := AfterRounds(s, rounds[..n]).0, rounds[n];
      PassKeepsSound(before, |before.hosts|, r.now, r.turns);
      StepsKeepSound(Passed(before, |before.hosts|, r.now, r.turns).state, r.parked);
    }
  }

  // ----- No lost wake-up, no late one -----

  /** A wake-up is waiting, or on its way. */
  predicate Alert(s: State) {
    s.wake || s.pending > 0
  }

  /** Whatever other goroutines change, they leave a wake-up. */
  lemma {:induction false} StepsLeaveWakeup(s: State, steps: seq<Step>)
    ensures Alert(SteppedAll(s, steps)) || SteppedAll(s, steps) == s
    ensures Alert(s) ==> Alert(SteppedAll(s, steps))
  {
    if steps != [] {
      StepsLeaveWakeup(s, steps[..|steps| - 1]);
    }
  }

  /** The loop has a reason to look at the host again no earlier than `next`. */
  predicate Due(s: State, host: string, next: int) {
    || (host in s.certs && next <= RenewAt(s.certs[host]))
    || (host in s.failures && next <= s.failures[host].retryAt)
  }

  predicate SameAt(host: string, s: State, s': State) {
    && (host in s'.certs <==> host in s.certs) && (host in s.certs ==> s'.certs[host] == s.certs[host])
    && Look(s'.failures, host) == Look(s.failures, host)
  }

  /** Visiting a host leaves a wake-up, or changes nothing but this host and leaves a time to look at it again. */
  lemma VisitIsTimely(s: State, host: string, now: int, t: Turn, next: int)
    ensures
      var p := Visited(s, host, now, t, next);
      && p.next <= next && (Alert(s) ==> Alert(p.state))
      && (Alert(p.state) ||
          (p.state.hosts == s.hosts && (p.cancelled || Due(p.state, host, p.next))
           && forall h | h != host :: SameAt(h, s, p.state)))
  {
    hide SteppedAll, RenewAt, Recorded;
    var s1 := SteppedAll(s, t.early);
    var s2 := SteppedAll(s1, t.middle);
    StepsLeaveWakeup(s, t.early);
    StepsLeaveWakeup(s1, t.middle);
    StepsLeaveWakeup(s2, t.late);
  }

  lemma {:induction false} PassIsTimely(s: State, n: nat, now: int, turns: nat -> Turn)
    requires n <= |s.hosts|
    ensures
      var p := Passed(s, n, now, turns);
      && p.next <= now + CHECK_INTERVAL && (Alert(s) ==> Alert(p.state))
      && (Alert(p.state) ||
          (p.state.hosts == s.hosts && (p.cancelled || forall h | h in s.hosts[..n] :: Due(p.state, h, p.next))))
  {
    hide Visited, Alert;
    if n > 0 {
      PassIsTimely(s, n - 1, now, turns);
      var q, p := Passed(s, n - 1, now, turns), Passed(s, n, now, turns);
      if !q.cancelled {
        VisitIsTimely(q.state, s.hosts[n - 1], now, turns(n - 1), q.next);
      }
      if !p.cancelled && !Alert(p.state) {
        forall h | h in s.hosts[..n]
          ensures Due(p.state, h, p.next)
        {
          if h != s.hosts[n - 1] {
            assert h in s.hosts[..n - 1];
            DueKept(q.state, p.state, h, q.next, p.next);
          }
        }
      }
    }
  }

  /** The renewal or retry time that a visit saw: read, or just set. */
  function Saw(s: State, host: string, now: int, t: Turn): int
    requires !Visited(s, host, now, t, now).cancelled
  {
    var s1 := SteppedAll(s, t.early);
    var s2 := SteppedAll(s1, t.middle);
    if host in s1.certs && now < RenewAt(s1.certs[host]) then RenewAt(s1.certs[host])
    else if host in s2.failures && now < s2.failures[host].retryAt then s2.failures[host].retryAt
    else match t.outcome
      case Some(c) => RenewAt(c)
      case None => Recorded(Look(SteppedAll(s2, t.late).failures, host), now + t.took).retryAt
  }

  lemma VisitIsBounded(s: State, host: string, now: int, t: Turn, next: int)
    ensures
      var p := Visited(s, host, now, t, next);
      && (p.cancelled <==> Visited(s, host, now, t, now).cancelled)
      && (!p.cancelled ==> p.next == Earliest(next, Saw(s, host, now, t)))
  {
    hide SteppedAll, RenewAt, Recorded;
  }

  /** Whoever interferes, a pass that is not cancelled returns a time no later than each of its hosts' as it saw it. */
  lemma {:induction false} PassIsBounded(s: State, n: nat, now: int, turns: nat -> Turn, i: nat)
    requires i < n <= |s.hosts| && !Passed(s, n, now, turns).cancelled
    ensures
      var p := Passed(s, i, now, turns);
      && !p.cancelled && !Visited(p.state, s.hosts[i], now, turns(i), now).cancelled
      && Passed(s, n, now, turns).next <= Saw(p.state, s.hosts[i], now, turns(i))
  {
    hide Visited, Saw;
    var q := Passed(s, n - 1, now, turns);
    VisitIsBounded(q.state, s.hosts[n - 1], now, turns(n - 1), q.next);
    if i < n - 1 {
      PassIsBounded(s, n - 1, now, turns, i);
    }
  }

  lemma DueKept(s: State, s': State, host: string, next: int, sooner: int)
    requires Due(s, host, next) && SameAt(host, s, s') && sooner <= next
    ensures Due(s', host, sooner)
  {
    hide RenewAt;
  }

  /**
   Whenever the loop is parked, a wake-up is on its way, or every host it manages by then is
   due no earlier than the timer, which is at most 12 hours after the start of the last pass.
   */
  lemma ParkedIsTimely(s: State, rounds: seq<Round>)
    requires AfterRounds(s, rounds).2 == Parked
    ensures
      var (s', next, _) := AfterRounds(s, rounds);
      && (Alert(s') || forall h | h in s'.hosts :: Due(s', h, next))
      && exists i :: 0 <= i < |rounds| && next <= rounds[i].now + 12 * 3600 * 1_000_000_000
  {
    hide Passed, SteppedAll, Due;
    var n := |rounds| - 1;
    if AfterRounds(s, rounds[..n]).2 == Looping {
      RoundIsTimely(AfterRounds(s, rounds[..n]).0, rounds[n]);
      assert rounds[n].now == rounds[n].now;
    } else {
      ParkedIsTimely(s, rounds[..n]);
      var i :| 0 <= i < n && AfterRounds(s, rounds).1 <= rounds[..n][i].now + CHECK_INTERVAL;
      assert rounds[..n][i] == rounds[i];
    }
  }

  lemma RoundIsTimely(s: State, r: Round)
    ensures
      var (s', next, phase) := AfterRound(s, r);
      && next <= r.now + CHECK_INTERVAL
      && (phase == Parked ==> Alert(s') || forall h | h in s'.hosts :: Due(s', h, next))
  {
    hide Passed, SteppedAll, Due;
    var p := Passed(s, |s.hosts|, r.now, r.turns);
    PassIsTimely(s, |s.hosts|, r.now, r.turns);
    StepsLeaveWakeup(p.state, r.parked);
    assert s.hosts[..|s.hosts|] == s.hosts;
  }

  /** A host is never left out: what a parked loop without a wake-up goes by are the hosts that its last pass read. */
  lemma LastPassReadHosts(s: State, r: Round)
    ensures
      var (s', _, phase) := AfterRound(s, r);
      phase == Parked && !Alert(s') ==> s'.hosts == s.hosts
  {
    hide Passed, SteppedAll;
    PassIsTimely(s, |s.hosts|, r.now, r.turns);
    StepsLeaveWakeup(Passed(s, |s.hosts|, r.now, r.turns).state, r.parked);
  }

  // ----- An undisturbed pass -----

  /** Nobody interferes and nothing is cancelled. */
  predicate Quiet(t: Turn) {
    t.early == [] && t.middle == [] && t.late == [] && !t.cancelled && !t.aborted
  }

  /** The host has no certificate or one due for renewal, and may be tried. */
  predicate Wanted(s: State, host: string, now: int) {
    (host in s.certs ==> RenewAt(s.certs[host]) <= now) && MayTry(Look(s.failures, host), now)
  }

  /** An attempt if one is wanted, nothing otherwise. */
  predicate Served(host: string, now: int, t: Turn, s: State, s': State) {
    if !Wanted(s, host, now) then SameAt(host, s, s')
    else if t.outcome.Some? then host in s'.certs && s'.certs[host] == t.outcome.value && host !in s'.failures
    else
      && (host in s'.certs <==> host in s.certs) && (host in s.certs ==> s'.certs[host] == s.certs[host])
      && Look(s'.failures, host) == Some(Recorded(Look(s.failures, host), now + t.took))
  }

  lemma QuietVisitServes(s: State, host: string, now: int, t: Turn, next: int)
    requires Quiet(t)
    ensures
      var p := Visited(s, host, now, t, next);
      && !p.cancelled && Served(host, now, t, s, p.state) && forall h | h != host :: SameAt(h, s, p.state)
  {
    hide RenewAt, Recorded;
  }

  /** Undisturbed, a pass attempts exactly the hosts that want it. */
  lemma {:induction false} QuietPassServes(s: State, n: nat, now: int, turns: nat -> Turn)
    requires n <= |s.hosts| && (forall i, j | 0 <= i < j < |s.hosts| :: s.hosts[i] != s.hosts[j])
    requires forall i | 0 <= i < n :: Quiet(turns(i))
    ensures
      var p := Passed(s, n, now, turns);
      && !p.cancelled
      && (forall i | 0 <= i < n :: Served(s.hosts[i], now, turns(i), s, p.state))
      && forall h | h !in s.hosts[..n] :: SameAt(h, s, p.state)
  {
    hide Visited, Quiet, Served, SameAt;
    if n == 0 {
      SameAtRefl(s);
    } else {
      QuietPassServes(s, n - 1, now, turns);
      var q, p, host := Passed(s, n - 1, now, turns).state, Passed(s, n, now, turns).state, s.hosts[n - 1];
      QuietVisitServes(q, host, now, turns(n - 1), Passed(s, n - 1, now, turns).next);
      assert s.hosts[..n] == s.hosts[..n - 1] + [host];
      assert SameAt(host, s, q);
      ServedThrough(host, now, turns(n - 1), s, q, p);
      forall i | 0 <= i < n - 1
        ensures Served(s.hosts[i], now, turns(i), s, p)
      {
        assert s.hosts[i] != host;
        assert SameAt(s.hosts[i], q, p);
        ServedAfter(s.hosts[i], now, turns(i), s, q, p);
      }
      forall h | h !in s.hosts[..n]
        ensures SameAt(h, s, p)
      {
        SameAtTwice(h, s, q, p);
      }
    }
  }

  lemma SameAtRefl(s: State)
    ensures forall h :: SameAt(h, s, s)
  {
  }

  lemma SameAtTwice(h: string, a: State, b: State, c: State)
    requires SameAt(h, a, b) && SameAt(h, b, c)
    ensures SameAt(h, a, c)
  {
  }

  lemma ServedThrough(h: string, now: int, t: Turn, a: State, b: State, c: State)
    requires SameAt(h, a, b) && Served(h, now, t, b, c)
    ensures Served(h, now, t, a, c)
  {
    hide RenewAt, Recorded, MayTry;
  }

  lemma ServedAfter(h: string, now: int, t: Turn, a: State, b: State, c: State)
    requires Served(h, now, t, a, b) && SameAt(h, b, c)
    ensures Served(h, now, t, a, c)
  {
    hide RenewAt, Recorded, MayTry, Wanted;
  }

  /** A fresh certificate holds off the next attempt only until it is due: there is no backoff after a success. */
  lemma NextAttemptAfterSuccess(host: string, now: int, t: Turn, s: State, s': State, later: int)
    requires Wanted(s, host, now) && t.outcome.Some? && Served(host, now, t, s, s')
    ensures Wanted(s', host, later) <==> RenewAt(t.outcome.value) <= later
  {
    hide RenewAt;
  }

  // ----- The manager -----

  class Manager {
    var hosts: seq<string>
    var certs: map<string, Certificate>
    var failures: map<string, Failure>
    var wake: bool
    var pending: nat
    ghost var log: seq<Event>

    constructor ()
      ensures View() == INITIAL && SoundState(View())
    {
      hosts, certs, failures, wake, pending, log := [], map[], map[], false, 0, [];
    }

    ghost function View(): State
      reads this
    {
      State(hosts, certs, failures, wake, pending, log)
    }

    // ----- setHosts -----

    /** The locked part of setHosts. */
    method MutateHosts(newHosts: seq<string>, reload: bool, stored: map<string, Certificate>)
      modifies this
      ensures View() == Stepped(old(View()), Mutate(newHosts, reload, stored))
      // In particular, certificates found on disk are there, and others stay as they were.
      ensures hosts == newHosts && wake == old(wake) && pending == old(pending) + 1
      ensures forall h :: h in certs <==> h in old(certs) || (h in newHosts && h in stored)
      ensures forall h | h in certs :: certs[h] == if h in old(certs) then old(certs)[h] else stored[h]
      // A reload starts every backoff over, a minute after the failure at the latest.
      ensures failures.Keys == old(failures).Keys && (!reload ==> failures == old(failures))
      ensures reload ==> forall h | h in failures ::
                var (was, now) := (old(failures)[h], failures[h]);
                && now.count == 0 && now.failedAt == was.failedAt
                && now.retryAt == if was.retryAt <= was.failedAt + 60_000_000_000 then was.retryAt
                                  else was.failedAt + 60_000_000_000
    {
      hosts := newHosts;
      if reload {
        ResetBackoff();
      }
      assert log + [] == log;
      LoadStored(newHosts, stored);
      pending := pending + 1;
    }

    method ResetBackoff()
      modifies this`failures, this`log
      ensures failures == ReloadedAll(old(failures)) && log == old(log) + [Reload]
    {
      hide Reloaded;
      var todo := failures.Keys;
      while todo != {}
        modifies this`failures
        invariant todo <= failures.Keys && failures.Keys == old(failures).Keys
        invariant forall h | h in failures ::
          failures[h] == if h in todo then old(failures)[h] else Reloaded(old(failures)[h])
        decreases |todo|
      {
        var h :| h in todo;
        failures := failures[h := Reloaded(failures[h])];
        todo := todo - {h};
      }
      log := log + [Reload];
    }

    method LoadStored(newHosts: seq<string>, stored: map<string, Certificate>)
      modifies this`certs
      ensures certs == WithStored(old(certs), newHosts, stored)
    {
      for i := 0 to |newHosts|
        invariant forall h :: h in certs <==> h in old(certs) || (h in newHosts[..i] && h in stored)
        invariant forall h | h in certs :: certs[h] == if h in old(certs) then old(certs)[h] else stored[h]
      {
        if newHosts[i] !in certs && newHosts[i] in stored {
          certs := certs[newHosts[i] := stored[newHosts[i]]];
        }
      }
      assert newHosts[..|newHosts|] == newHosts;
    }

    /** The other half of setHosts: wake the loop, unless a wake-up is waiting already. */
    method SendWake()
      requires pending > 0
      modifies this`wake, this`pending
      ensures View() == Stepped(old(View()), Send)
    {
      if !wake {
        wake := true;
      }
      pending := pending - 1;
    }

    /** Other goroutines run. */
    method Interfere(steps: seq<Step>)
      modifies this
      ensures View() == SteppedAll(old(View()), steps)
    {
      hide WithStored, ReloadedAll;
      for i := 0 to |steps|
        invariant View() == SteppedAll(old(View()), steps[..i])
      {
        assert steps[..i + 1][..i] == steps[..i];
        match steps[i]
        case Mutate(newHosts, reload, stored) => MutateHosts(newHosts, reload, stored);
        case Send =>
          if pending > 0 {
            SendWake();
          }
      }
      assert steps[..|steps|] == steps;
    }

    // ----- The issuing loop -----

    method RecordFailure(host: string, now: int) returns (retryAt: int)
      modifies this`failures, this`log
      ensures View() == Failing(old(View()), host, now) && host in failures && retryAt == failures[host].retryAt
      ensures failures[host].count == (if host in old(failures) then old(failures)[host].count else 0) + 1
      ensures failures[host].failedAt == now && retryAt == now + Delay(failures[host].count)
    {
      var count := (if host in failures then failures[host].count else 0) + 1;
      retryAt := now + Earliest(MIN_RETRY * Pow2(if count - 1 < 10 then count - 1 else 10), MAX_RETRY);
      failures := failures[host := Failure(count, now, retryAt)];
      log := log + [Failed(host, now)];
    }

    method StoreCertificate(host: string, certificate: Certificate, ghost at: int)
      modifies this`certs, this`failures, this`log
      ensures View() == Issued(old(View()), host, certificate, at)
    {
      certs := certs[host := certificate];
      failures := failures - {host};
      log := log + [Obtained(host, at, RenewAt(certificate))];
    }

    /** An attempt to obtain a certificate, and what becomes of it. */
    method Attempt(host: string, now: int, t: Turn, soonest: int) returns (next: int, cancelled: bool)
      modifies this
      ensures Progress(View(), next, cancelled) == Attempted(old(View()), host, now, t, soonest)
    {
      hide SteppedAll, Recorded, RenewAt;
      next, cancelled := soonest, false;
      Interfere(t.late);
      match t.outcome
      case None =>
        if t.aborted {
          cancelled := true;
        } else {
          var retryAt := RecordFailure(host, now + t.took);
          next := Earliest(next, retryAt);
        }
      case Some(certificate) =>
        StoreCertificate(host, certificate, now + t.took);
        next := Earliest(next, RenewAt(certificate));
    }

    /** One host's part of a pass. */
    method Visit(host: string, now: int, t: Turn, soonest: int) returns (next: int, cancelled: bool)
      modifies this
      ensures Progress(View(), next, cancelled) == Visited(old(View()), host, now, t, soonest)
    {
      hide SteppedAll, Attempted, RenewAt;
      next, cancelled := soonest, false;
      Interfere(t.early);
      if t.cancelled {
        cancelled := true;
        return;
      }
      if host in certs && now < RenewAt(certs[host]) {
        next := Earliest(next, RenewAt(certs[host]));
        return;
      }
      Interfere(t.middle);
      if host in failures && now < failures[host].retryAt {
        next := Earliest(next, failures[host].retryAt);
        return;
      }
      next, cancelled := Attempt(host, now, t, next);
    }

    /** A pass over the hosts; the locked clone of the list is its first step. */
    method Maintain(now: int, turns: nat -> Turn) returns (next: int, cancelled: bool)
      modifies this
      ensures Progress(View(), next, cancelled) == Passed(old(View()), |old(hosts)|, now, turns)
    {
      hide Visited;
      next, cancelled := now + CHECK_INTERVAL, false;
      var captured := hosts;
      for i := 0 to |captured|
        invariant Progress(View(), next, cancelled) == Passed(old(View()), i, now, turns)
      {
        if cancelled {
          CancelledForGood(old(View()), i, |captured|, now, turns);
          break;
        }
        next, cancelled := Visit(captured[i], now, turns(i), next);
      }
    }

    /** The loop, for as many rounds as it is let go on. */
    method Run(rounds: seq<Round>) returns (next: int, phase: Phase)
      modifies this
      ensures (View(), next, phase) == AfterRounds(old(View()), rounds)
    {
      hide Passed, SteppedAll;
      next, phase := 0, Looping;
      for i := 0 to |rounds|
        invariant (View(), next, phase) == AfterRounds(old(View()), rounds[..i])
      {
        assert rounds[..i + 1][..i] == rounds[..i];
        if phase == Looping {
          var cancelled: bool;
          next, cancelled := Maintain(rounds[i].now, rounds[i].turns);
          Interfere(rounds[i].parked);
          if cancelled {
            phase := Stopped;
          } else if wake && !rounds[i].timerFirst {
            wake := false;
          } else if rounds[i].waited < next {
            phase := Parked;
          }
        }
      }
      assert rounds[..|rounds|] == rounds;
    }
  }

  lemma {:induction false} CancelledForGood(s: State, n: nat, m: nat, now: int, turns: nat -> Turn)
    requires n <= m <= |s.hosts| && Passed(s, n, now, turns).cancelled
    ensures Passed(s, m, now, turns) == Passed(s, n, now, turns)
  {
    hide Visited;
    if n < m {
      CancelledForGood(s, n, m - 1, now, turns);
    }
  }
}
