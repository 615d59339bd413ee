/** How many attempts may fail within an hour, successes and reloads included (acme.go:36-39, acme.go:248-309). */
module AcmeLimit {
  import opened Wrappers
  import opened Certificates
  import opened Acme
  import opened AcmeSpacing

  /** A failed attempt, and how many in a row it made. */
  datatype Miss = Miss(at: int, count: nat)

  function Misses(before: seq<Event>, segment: seq<Event>, host: string): seq<Miss>
    decreases |segment|
  {
    if segment == [] then []
    else
      var n := |segment| - 1;
      var e := segment[n];
      Misses(before, segment[..n], host)
      + if e.Failed? && e.host == host then [Miss(e.at, CountOf(FailureAfter(before + segment[..n], host)) + 1)] else []
  }

  /** Every certificate obtained for the host is due for renewal `lasting` after it came, or later. */
  predicate FreshFor(log: seq<Event>, host: string, lasting: int) {
    forall e | e in log && e.Obtained? && e.host == host :: e.renewAt >= e.at + lasting
  }

  /** The next failure is the next of the row after the full backoff, or begins a row after a success as well. */
  predicate Pace(a: Miss, b: Miss, lasting: int) {
    && a.count >= 1
    && (|| (b.count == a.count + 1 && b.at >= a.at + Delay(a.count))
        || (b.count == 1 && b.at >= a.at + Delay(a.count) + lasting))
  }

  predicate Paced(misses: seq<Miss>, lasting: int) {
    forall k | 0 < k < |misses| :: Pace(misses[k - 1], misses[k], lasting)
  }

  /** What a host's record and certificate say after its last failure. */
  predicate Awaits(f: Option<Failure>, r: Option<int>, last: Miss, lasting: int) {
    && last.count >= 1
    && (|| (f.Some? && f.value.count == last.count && f.value.retryAt == last.at + Delay(last.count))
        || (f.None? && r.Some? && r.value >= last.at + Delay(last.count) + lasting))
  }

  predicate AwaitsLast(f: Option<Failure>, r: Option<int>, misses: seq<Miss>, lasting: int) {
    misses != [] ==> Awaits(f, r, misses[|misses| - 1], lasting)
  }

  lemma PaceStep(f: Option<Failure>, r: Option<int>, misses: seq<Miss>, host: string, e: Event, lasting: int)
    requires Paced(misses, lasting) && AwaitsLast(f, r, misses, lasting) && lasting >= 0 && e != Reload
    requires IsAttempt(e) && e.host == host ==> MayTry(f, e.at) && MayRenew(r, e.at)
    requires e.Obtained? && e.host == host ==> e.renewAt >= e.at + lasting
    ensures
      var misses' := misses + if e.Failed? && e.host == host then [Miss(e.at, CountOf(f) + 1)] else [];
      Paced(misses', lasting) && AwaitsLast(NoteEvent(f, host, e), NoteRenewal(r, host, e), misses', lasting)
  {
    hide Delay;
  }

  /** Without reloads, failures keep this pace over any number of successes. */
  lemma {:induction false} MissesArePaced(before: seq<Event>, segment: seq<Event>, host: string, lasting: int)
    requires Patient(before + segment) && Reload !in segment && FreshFor(segment, host, lasting) && lasting >= 0
    ensures Paced(Misses(before, segment, host), lasting)
    ensures AwaitsLast(FailureAfter(before + segment, host), RenewalAfter(before + segment, host),
                       Misses(before, segment, host), lasting)
    decreases |segment|
  {
    hide Patient, Paced, AwaitsLast, FailureAfter, RenewalAfter, NoteEvent, NoteRenewal, MayTry, MayRenew;
    if segment == [] {
      NoMisses(FailureAfter(before, host), RenewalAfter(before, host), lasting);
      assert before + segment == before;
    } else {
      var n := |segment| - 1;
      var log, e := before + segment[..n], segment[n];
      assert before + segment == log + [e] && (before + segment)[..|before + segment| - 1] == log;
      PatientPrefix(before + segment);
      MissesArePaced(before, segment[..n], host, lasting);
      FailureAfterNext(log, host, e);
      PaceStep(FailureAfter(log, host), RenewalAfter(log, host), Misses(before, segment[..n], host), host, e, lasting);
    }
  }

  lemma NoMisses(f: Option<Failure>, r: Option<int>, lasting: int)
    ensures Paced([], lasting) && AwaitsLast(f, r, [], lasting)
  {
  }

  lemma {:induction false} MissTimes(before: seq<Event>, segment: seq<Event>, host: string)
    ensures |Misses(before, segment, host)| == |Times(segment, host)|
    ensures forall k | 0 <= k < |Times(segment, host)| :: Misses(before, segment, host)[k].at == Times(segment, host)[k]
    decreases |segment|
  {
    if segment != [] {
      MissTimes(before, segment[..|segment| - 1], host);
    }
  }

  // ----- How long a number of failures takes -----

  lemma DelayGrows(count: nat)
    requires count >= 1
    ensures Delay(count) >= 5 * MINUTE
    ensures count >= 2 ==> Delay(count) >= 10 * MINUTE
    ensures count >= 3 ==> Delay(count) >= 20 * MINUTE
    ensures count >= 4 ==> Delay(count) >= 40 * MINUTE
  {
    hide Delay;
    FirstDelays();
    if count >= 4 {
      DelayMonotone(4, count);
    } else if count == 3 {
      DelayMonotone(3, count);
    } else if count == 2 {
      DelayMonotone(2, count);
    } else {
      DelayMonotone(1, count);
    }
  }

  lemma FirstDelays()
    ensures Delay(1) == 5 * MINUTE && Delay(2) == 10 * MINUTE && Delay(3) == 20 * MINUTE && Delay(4) == 40 * MINUTE
  {
    assert Pow2(1) == 2 && Pow2(2) == 4 && Pow2(3) == 8;
  }

  /** From this freshness on no hour sees six failures: 5 + 10 minutes, a success, 5 + 10, a success, 5. */
  const FRESH_FOR_FIVE: int := 750_000_000_000

  /** From this freshness on no hour sees five failures: 5 + 10 minutes, a success, 5 + 10 or 10 + 5. */
  const FRESH_FOR_FOUR: int := 30 * MINUTE

  lemma PaceAt(m: seq<Miss>, lasting: int, k: nat)
    requires Paced(m, lasting) && k + 1 < |m|
    ensures Pace(m[k], m[k + 1], lasting)
  {
    assert Pace(m[k + 1 - 1], m[k + 1], lasting);
  }

  lemma FiveTakeAnHour(m: seq<Miss>, lasting: int, k: nat)
    requires Paced(m, lasting) && lasting >= FRESH_FOR_FOUR && k + 4 < |m|
    ensures m[k + 4].at - m[k].at >= HOUR
  {
    hide Delay;
    PaceAt(m, lasting, k);
    PaceAt(m, lasting, k + 1);
    PaceAt(m, lasting, k + 2);
    PaceAt(m, lasting, k + 3);
    DelayGrows(m[k].count);
    DelayGrows(m[k + 1].count);
    DelayGrows(m[k + 2].count);
    DelayGrows(m[k + 3].count);
  }

  lemma SixTakeAnHour(m: seq<Miss>, lasting: int, k: nat)
    requires Paced(m, lasting) && lasting >= FRESH_FOR_FIVE && k + 5 < |m|
    ensures m[k + 5].at - m[k].at >= HOUR
  {
    hide Delay;
    PaceAt(m, lasting, k);
    PaceAt(m, lasting, k + 1);
    PaceAt(m, lasting, k + 2);
    PaceAt(m, lasting, k + 3);
    PaceAt(m, lasting, k + 4);
    DelayGrows(m[k].count);
    DelayGrows(m[k + 1].count);
    DelayGrows(m[k + 2].count);
    DelayGrows(m[k + 3].count);
    DelayGrows(m[k + 4].count);
  }

  // ----- An hour's worth of failures -----

  function CountIn(times: seq<int>, from: int): nat {
    if times == [] then 0
    else
      var last := times[|times| - 1];
      CountIn(times[..|times| - 1], from) + if from <= last < from + HOUR then 1 else 0
  }

  lemma {:induction false} CountInNone(times: seq<int>, from: int)
    requires forall k | 0 <= k < |times| :: times[k] < from
    ensures CountIn(times, from) == 0
  {
    if times != [] {
      CountInNone(times[..|times| - 1], from);
    }
  }

  lemma {:induction false} CountInTail(times: seq<int>, n: nat, from: int)
    requires n <= |times|
    ensures CountIn(times, from) <= CountIn(times[..n], from) + |times| - n
    decreases |times|
  {
    if n < |times| {
      CountInTail(times[..|times| - 1], n, from);
      assert times[..|times| - 1][..n] == times[..n];
    } else {
      assert times[..n] == times;
    }
  }

  lemma {:induction false} Increasing(times: seq<int>, i: nat, j: nat)
    requires Apart(times, 0) && i <= j < |times|
    ensures times[i] <= times[j]
    decreases j
  {
    if i < j {
      Increasing(times, i, j - 1);
    }
  }

  /** Any `limit` + 1 of them in a row take an hour or more. */
  predicate Spread(times: seq<int>, limit: nat) {
    Apart(times, 0) && forall k: nat | k + limit < |times| :: times[k + limit] >= times[k] + HOUR
  }

  lemma SpreadPrefix(times: seq<int>, limit: nat, n: nat)
    requires Spread(times, limit) && n <= |times|
    ensures Spread(times[..n], limit)
  {
    var prefix := times[..n];
    forall k: nat | k + limit < |prefix|
      ensures prefix[k + limit] >= prefix[k] + HOUR
    {
      assert times[k + limit] >= times[k] + HOUR;
    }
    forall k | 0 < k < |prefix|
      ensures prefix[k] - prefix[k - 1] >= 0
    {
      assert times[k] - times[k - 1] >= 0;
    }
  }

  lemma {:induction false} AtMost(times: seq<int>, limit: nat, from: int)
    requires Spread(times, limit) && limit > 0
    ensures CountIn(times, from) <= limit
    decreases |times|
  {
    hide Spread;
    var n := |times| - 1;
    if n >= 0 {
      SpreadPrefix(times, limit, n);
      AtMost(times[..n], limit, from);
      if from <= times[n] < from + HOUR && n >= limit {
        EarlyOnes(times, limit, from);
        CountInNone(times[..n - limit + 1], from);
        CountInTail(times, n - limit + 1, from);
      } else if n < limit {
        CountInTail(times, 0, from);
        assert times[..0] == [];
      }
    }
  }

  lemma EarlyOnes(times: seq<int>, limit: nat, from: int)
    requires Spread(times, limit) && |times| > limit && times[|times| - 1] < from + HOUR
    ensures forall k | 0 <= k < |times| - limit :: times[k] < from
  {
    var n := |times| - 1;
    assert times[(n - limit) + limit] >= times[n - limit] + HOUR;
    forall k | 0 <= k < |times| - limit
      ensures times[k] < from
    {
      Increasing(times, k, n - limit);
    }
  }

  lemma PacedIsSpread(before: seq<Event>, segment: seq<Event>, host: string, lasting: int)
    requires Patient(before + segment) && Reload !in segment && FreshFor(segment, host, lasting)
    requires lasting >= FRESH_FOR_FIVE
    ensures Spread(Times(segment, host), 5)
    ensures lasting >= FRESH_FOR_FOUR ==> Spread(Times(segment, host), 4)
  {
    hide Patient, FreshFor, Misses, Times, Delay, Pace;
    var m, times := Misses(before, segment, host), Times(segment, host);
    MissesArePaced(before, segment, host, lasting);
    MissTimes(before, segment, host);
    forall k | 0 < k < |times|
      ensures times[k] - times[k - 1] >= 0
    {
      PaceForward(m[k - 1], m[k], lasting);
    }
    forall k: nat | k + 5 < |times|
      ensures times[k + 5] >= times[k] + HOUR
    {
      SixTakeAnHour(m, lasting, k);
    }
    if lasting >= FRESH_FOR_FOUR {
      forall k: nat | k + 4 < |times|
        ensures times[k + 4] >= times[k] + HOUR
      {
        FiveTakeAnHour(m, lasting, k);
      }
    }
  }

  lemma PaceForward(a: Miss, b: Miss, lasting: int)
    requires Pace(a, b, lasting) && lasting >= 0
    ensures b.at >= a.at
  {
    DelayGrows(a.count);
  }

  /** Without reloads, and with certificates that last long enough, no hour sees more than five or four failures. */
  lemma FewAnHour(before: seq<Event>, segment: seq<Event>, host: string, lasting: int, from: int)
    requires Patient(before + segment) && Reload !in segment && FreshFor(segment, host, lasting)
    requires lasting >= FRESH_FOR_FIVE
    ensures CountIn(Times(segment, host), from) <= if lasting >= FRESH_FOR_FOUR then 4 else 5
  {
    hide Spread, Patient, FreshFor, Times, CountIn;
    PacedIsSpread(before, segment, host, lasting);
    AtMost(Times(segment, host), if lasting >= FRESH_FOR_FOUR then 4 else 5, from);
  }

  /** In particular while there is no success at all. */
  lemma FourAnHour(before: seq<Event>, segment: seq<Event>, host: string, from: int)
    requires Patient(before + segment) && NoSuccess(segment, host) && Reload !in segment
    ensures CountIn(Times(segment, host), from) <= 4
  {
    FewAnHour(before, segment, host, FRESH_FOR_FOUR, from);
  }

  // ----- Runs of the issuing loop -----

  /** The clock does not go back from round to round. */
  predicate InOrder(rounds: seq<Round>) {
    && (forall i | 0 <= i < |rounds| :: rounds[i].now <= rounds[i].waited)
    && forall i | 0 < i < |rounds| :: rounds[i - 1].waited <= rounds[i].now
  }

  /**
   In every run of a manager no hour sees more than `limit` failures for a host, while at most `reloads` reloads come
   between them and every certificate obtained between them lasts.
   */
  ghost predicate HourlyLimitHolds(limit: nat, reloads: nat, lasting: int) {
    forall rounds: seq<Round>, before: seq<Event>, segment: seq<Event>, host: string, from: int
      | InOrder(rounds) && AfterRounds(INITIAL, rounds).0.log == before + segment
        && Reloads(segment) <= reloads && FreshFor(segment, host, lasting)
      :: CountIn(Times(segment, host), from) <= limit
  }

  lemma {:induction false} NoReloads(log: seq<Event>)
    ensures Reloads(log) == 0 <==> Reload !in log
  {
    if log != [] {
      NoReloads(log[..|log| - 1]);
      assert log == log[..|log| - 1] + [log[|log| - 1]];
    }
  }

  lemma InitialIsSound()
    ensures SoundState(INITIAL)
  {
  }

  /** The limits hold from these on; restarts are covered, as any sound state may be the first. */
  lemma RunsStayFew(s: State, rounds: seq<Round>, before: seq<Event>, segment: seq<Event>, host: string, lasting: int,
                    from: int)
    requires SoundState(s) && AfterRounds(s, rounds).0.log == before + segment
    requires Reload !in segment && FreshFor(segment, host, lasting) && lasting >= FRESH_FOR_FIVE
    ensures CountIn(Times(segment, host), from) <= if lasting >= FRESH_FOR_FOUR then 4 else 5
  {
    hide AfterRounds, Times, CountIn, FreshFor, Patient, FailureAfter, RenewalAfter;
    RunKeepsSound(s, rounds);
    FewAnHour(before, segment, host, lasting, from);
  }

  // ----- Runs that fail more often -----

  lemma LogNext(log: seq<Event>, host: string, e: Event)
    ensures Times(log + [e], host) == Times(log, host) + if e.Failed? && e.host == host then [e.at] else []
    ensures Reloads(log + [e]) == Reloads(log) + if e.Reload? then 1 else 0
  {
    assert (log + [e])[..|log|] == log;
  }

  lemma CountInNext(times: seq<int>, at: int)
    requires 0 <= at < HOUR
    ensures CountIn(times + [at], 0) == CountIn(times, 0) + 1
  {
    assert (times + [at])[..|times|] == times;
  }

  /** So many failures in its first hour, so many reloads, and certificates that last. */
  predicate Counts(log: seq<Event>, host: string, failures: nat, reloads: nat, lasting: int) {
    CountIn(Times(log, host), 0) == failures && Reloads(log) == reloads && FreshFor(log, host, lasting)
  }

  lemma ThenFails(log: seq<Event>, host: string, n: nat, r: nat, lasting: int, at: int)
    requires Counts(log, host, n, r, lasting) && 0 <= at < HOUR
    ensures Counts(log + [Failed(host, at)], host, n + 1, r, lasting)
  {
    hide Times, Reloads, CountIn;
    LogNext(log, host, Failed(host, at));
    CountInNext(Times(log, host), at);
  }

  lemma ThenReloads(log: seq<Event>, host: string, n: nat, r: nat, lasting: int)
    requires Counts(log, host, n, r, lasting)
    ensures Counts(log + [Reload], host, n, r + 1, lasting)
  {
    hide Times, Reloads, CountIn;
    LogNext(log, host, Reload);
    assert Times(log, host) + [] == Times(log, host);
  }

  lemma ThenSucceeds(log: seq<Event>, host: string, n: nat, r: nat, lasting: int, at: int)
    requires Counts(log, host, n, r, lasting)
    ensures Counts(log + [Obtained(host, at, at + lasting)], host, n, r, lasting)
  {
    hide Times, Reloads, CountIn;
    LogNext(log, host, Obtained(host, at, at + lasting));
    assert Times(log, host) + [] == Times(log, host);
  }

  /** The host has no certificate or one that is due for renewal. */
  predicate Uncovered(s: State, host: string, time: int) {
    host in s.certs ==> RenewAt(s.certs[host]) <= time
  }

  /** A run that manages one host has come to state `s`, and waited until a time when the host wants a certificate. */
  ghost predicate Reached(rounds: seq<Round>, host: string, s: State, time: int, failures: nat, reloads: nat,
                          lasting: int)
  {
    && rounds != [] && InOrder(rounds) && rounds[|rounds| - 1].waited == time
    && AfterRounds(INITIAL, rounds).0 == s && AfterRounds(INITIAL, rounds).2 == Looping
    && s.hosts == [host] && Uncovered(s, host, time) && !s.wake && s.pending == 0
    && MayTry(Look(s.failures, host), time)
    && Counts(s.log, host, failures, reloads, lasting)
  }

  function Ending(outcome: Option<Certificate>): nat -> Turn {
    i => Turn([], false, [], [], outcome, false, 0)
  }

  /** The first pass finds no hosts; a configuration that names one wakes the loop. */
  lemma FirstRound(host: string, lasting: int) returns (rounds: seq<Round>, s: State)
    ensures Reached(rounds, host, s, 0, 0, 0, lasting) && s.failures == map[]
  {
    var steps := [Mutate([host], false, map[]), Send];
    var r := Round(0, Ending(None), steps, false, 0);
    rounds := [r];
    TwoSteps(INITIAL, steps);
    assert rounds[..0] == [];
    assert WithStored(map[], [host], map[]) == map[];
    s := AfterRound(INITIAL, r).0;
    assert s == State([host], map[], map[], false, 0, [] + []);
  }

  lemma TwoSteps(s: State, steps: seq<Step>)
    requires |steps| == 2
    ensures SteppedAll(s, steps) == Stepped(Stepped(s, steps[0]), steps[1])
  {
    var first := [steps[0]];
    assert steps[..1] == first && first[..0] == [];
    assert SteppedAll(s, first) == Stepped(s, steps[0]);
  }

  lemma FailingPass(s: State, host: string, at: int)
    requires s.hosts == [host] && Uncovered(s, host, at) && MayTry(Look(s.failures, host), at)
    ensures
      var p := Passed(s, 1, at, Ending(None));
      && p.state == Failing(s, host, at) && !p.cancelled
      && p.next <= p.state.failures[host].retryAt
  {
    hide Recorded, RenewAt;
    assert Passed(s, 0, at, Ending(None)) == Progress(s, at + CHECK_INTERVAL, false);
  }

  lemma SucceedingPass(s: State, host: string, at: int, c: Certificate)
    requires s.hosts == [host] && Uncovered(s, host, at) && MayTry(Look(s.failures, host), at)
    ensures
      var p := Passed(s, 1, at, Ending(Some(c)));
      p.state == Issued(s, host, c, at) && !p.cancelled && p.next <= RenewAt(c)
  {
    hide Recorded, RenewAt;
    assert Passed(s, 0, at, Ending(Some(c))) == Progress(s, at + CHECK_INTERVAL, false);
  }

  /** The next pass fails, and the loop waits for its timer. */
  lemma FailingRound(rounds: seq<Round>, host: string, s: State, at: int, n: nat, r: nat, lasting: int, until: int)
    returns (more: seq<Round>, s': State)
    requires Reached(rounds, host, s, at, n, r, lasting) && 0 <= at < HOUR && at <= until
    requires Recorded(Look(s.failures, host), at).retryAt <= until
    ensures Reached(more, host, s', until, n + 1, r, lasting)
    ensures Look(s'.failures, host) == Some(Recorded(Look(s.failures, host), at))
  {
    hide Recorded, RenewAt, Passed, Counts;
    FailingPass(s, host, at);
    ThenFails(s.log, host, n, r, lasting, at);
    more := rounds + [Round(at, Ending(None), [], true, until)];
    assert more[..|rounds|] == rounds;
    s' := Failing(s, host, at);
  }

  /** The next pass fails, and a reload wakes the loop. */
  lemma ReloadedRound(rounds: seq<Round>, host: string, s: State, at: int, n: nat, r: nat, lasting: int, until: int)
    returns (more: seq<Round>, s': State)
    requires Reached(rounds, host, s, at, n, r, lasting) && 0 <= at < HOUR && at + RELOAD_RETRY <= until
    ensures Reached(more, host, s', until, n + 1, r + 1, lasting)
    ensures Look(s'.failures, host) == Some(Reloaded(Recorded(Look(s.failures, host), at)))
  {
    hide Delay, RenewAt, Passed, Counts;
    var steps := [Mutate([host], true, map[]), Send];
    FailingPass(s, host, at);
    ThenFails(s.log, host, n, r, lasting, at);
    ThenReloads(s.log + [Failed(host, at)], host, n + 1, r, lasting);
    TwoSteps(Failing(s, host, at), steps);
    assert WithStored(s.certs, [host], map[]) == s.certs;
    more := rounds + [Round(at, Ending(None), steps, false, until)];
    assert more[..|rounds|] == rounds;
    s' := AfterRounds(INITIAL, more).0;
  }

  /** Renewal comes `lasting` after this certificate begins. */
  lemma Lasting(host: string, at: int, lasting: nat) returns (c: Certificate)
    requires lasting <= HOUR
    ensures RenewAt(c) == at + lasting
  {
    c := Certificate([host], at, at + (3 * lasting + 1) / 2);
    assert HOUR == 3_600_000_000_000;
    RenewAtTwoThirdsIff(c);
  }

  /** The next pass obtains a certificate, and the loop waits until it is due for renewal. */
  lemma SucceedingRound(rounds: seq<Round>, host: string, s: State, at: int, n: nat, r: nat, lasting: nat)
    returns (more: seq<Round>, s': State)
    requires Reached(rounds, host, s, at, n, r, lasting) && lasting <= HOUR
    ensures Reached(more, host, s', at + lasting, n, r, lasting) && Look(s'.failures, host) == None
  {
    hide Recorded, RenewAt, Passed, Counts;
    var c := Lasting(host, at, lasting);
    SucceedingPass(s, host, at, c);
    ThenSucceeds(s.log, host, n, r, lasting, at);
    more := rounds + [Round(at, Ending(Some(c)), [], true, at + lasting)];
    assert more[..|rounds|] == rounds;
    s' := Issued(s, host, c, at);
  }

  /** A run with failures after 0, 5, 15 and 35 minutes, a reload, and failures after 36, 41 and 51 minutes. */
  lemma SevenWithOneReload(host: string, lasting: int) returns (rounds: seq<Round>)
    ensures InOrder(rounds) && Counts(AfterRounds(INITIAL, rounds).0.log, host, 7, 1, lasting)
  {
    hide AfterRounds, Counts, Delay;
    FirstDelays();
    var s: State;
    rounds, s := FirstRound(host, lasting);
    rounds, s := FailingRound(rounds, host, s, 0, 0, 0, lasting, 5 * MINUTE);
    rounds, s := FailingRound(rounds, host, s, 5 * MINUTE, 1, 0, lasting, 15 * MINUTE);
    rounds, s := FailingRound(rounds, host, s, 15 * MINUTE, 2, 0, lasting, 35 * MINUTE);
    rounds, s := ReloadedRound(rounds, host, s, 35 * MINUTE, 3, 0, lasting, 36 * MINUTE);
    rounds, s := FailingRound(rounds, host, s, 36 * MINUTE, 4, 1, lasting, 41 * MINUTE);
    rounds, s := FailingRound(rounds, host, s, 41 * MINUTE, 5, 1, lasting, 51 * MINUTE);
    rounds, s := FailingRound(rounds, host, s, 51 * MINUTE, 6, 1, lasting, 71 * MINUTE);
  }

  /** Two failures, and a certificate. */
  lemma TwoAndSuccess(rounds: seq<Round>, host: string, s: State, at: int, n: nat, lasting: nat)
    returns (more: seq<Round>, s': State)
    requires Reached(rounds, host, s, at, n, 0, lasting) && lasting <= HOUR && 0 <= at < HOUR - 5 * MINUTE
    requires Look(s.failures, host) == None
    ensures Reached(more, host, s', at + 15 * MINUTE + lasting, n + 2, 0, lasting) && Look(s'.failures, host) == None
  {
    hide Reached, Delay;
    FirstDelays();
    more, s' := FailingRound(rounds, host, s, at, n, 0, lasting, at + 5 * MINUTE);
    more, s' := FailingRound(more, host, s', at + 5 * MINUTE, n + 1, 0, lasting, at + 15 * MINUTE);
    more, s' := SucceedingRound(more, host, s', at + 15 * MINUTE, n + 2, 0, lasting);
  }

  /** No reload: failures after 0 and 5 minutes, a certificate ten minutes later, and the same twice more. */
  lemma SixWithSuccesses(host: string, lasting: nat) returns (rounds: seq<Round>)
    requires lasting < FRESH_FOR_FIVE
    ensures InOrder(rounds) && Counts(AfterRounds(INITIAL, rounds).0.log, host, 6, 0, lasting)
  {
    hide AfterRounds, Counts;
    var s: State;
    rounds, s := FirstRound(host, lasting);
    rounds, s := TwoAndSuccess(rounds, host, s, 0, 0, lasting);
    rounds, s := TwoAndSuccess(rounds, host, s, 15 * MINUTE + lasting, 2, lasting);
    rounds, s := TwoAndSuccess(rounds, host, s, 30 * MINUTE + 2 * lasting, 4, lasting);
  }

  /** No reload: failures after 0 and 5 minutes, a certificate ten minutes later, and three failures in a row. */
  lemma FiveWithSuccess(host: string, lasting: nat) returns (rounds: seq<Round>)
    requires lasting < FRESH_FOR_FOUR
    ensures InOrder(rounds) && Counts(AfterRounds(INITIAL, rounds).0.log, host, 5, 0, lasting)
  {
    hide AfterRounds, Counts, Delay;
    FirstDelays();
    var s: State;
    rounds, s := FirstRound(host, lasting);
    rounds, s := TwoAndSuccess(rounds, host, s, 0, 0, lasting);
    var at := 15 * MINUTE + lasting;
    rounds, s := FailingRound(rounds, host, s, at, 2, 0, lasting, at + 5 * MINUTE);
    rounds, s := FailingRound(rounds, host, s, at + 5 * MINUTE, 3, 0, lasting, at + 15 * MINUTE);
    rounds, s := FailingRound(rounds, host, s, at + 15 * MINUTE, 4, 0, lasting, at + 35 * MINUTE);
  }

  // ----- Exactly when the limit holds -----

  lemma LimitFails(rounds: seq<Round>, host: string, limit: nat, failures: nat, reloads: nat, lasting: int,
                   most: nat, least: int)
    requires InOrder(rounds) && Counts(AfterRounds(INITIAL, rounds).0.log, host, failures, reloads, lasting)
    requires limit < failures && reloads <= most && least <= lasting
    ensures !HourlyLimitHolds(limit, most, least)
  {
    hide AfterRounds, Times, CountIn;
    var log := AfterRounds(INITIAL, rounds).0.log;
    assert log == [] + log;
    assert FreshFor(log, host, least);
    assert CountIn(Times(log, host), 0) > limit;
  }

  /**
   No hour of any run sees more than five failures exactly if no reload comes between them and no certificate is
   renewed within 12.5 minutes of coming; for four it is half an hour.
   */
  lemma HourlyLimitIff(reloads: nat, lasting: int)
    ensures HourlyLimitHolds(5, reloads, lasting) <==> reloads == 0 && lasting >= FRESH_FOR_FIVE
    ensures HourlyLimitHolds(4, reloads, lasting) <==> reloads == 0 && lasting >= FRESH_FOR_FOUR
  {
    hide HourlyLimitHolds, AfterRounds, Counts;
    if reloads > 0 {
      var rounds := SevenWithOneReload("", lasting);
      LimitFails(rounds, "", 5, 7, 1, lasting, reloads, lasting);
      LimitFails(rounds, "", 4, 7, 1, lasting, reloads, lasting);
    } else {
      if lasting >= FRESH_FOR_FIVE {
        LimitHolds(lasting);
      } else {
        var rounds := SixWithSuccesses("", FRESH_FOR_FIVE - 1);
        LimitFails(rounds, "", 5, 6, 0, FRESH_FOR_FIVE - 1, 0, lasting);
      }
      if lasting < FRESH_FOR_FOUR {
        var rounds := FiveWithSuccess("", FRESH_FOR_FOUR - 1);
        LimitFails(rounds, "", 4, 5, 0, FRESH_FOR_FOUR - 1, 0, lasting);
      }
    }
  }

  lemma LimitHolds(lasting: int)
    requires lasting >= FRESH_FOR_FIVE
    ensures HourlyLimitHolds(5, 0, lasting) && (lasting >= FRESH_FOR_FOUR ==> HourlyLimitHolds(4, 0, lasting))
  {
    hide AfterRounds, Times, CountIn, FreshFor, InOrder, Reloads, SoundState;
    InitialIsSound();
    forall rounds, before, segment, host, from
      | InOrder(rounds) && AfterRounds(INITIAL, rounds).0.log == before + segment
        && Reloads(segment) <= 0 && FreshFor(segment, host, lasting)
      ensures CountIn(Times(segment, host), from) <= if lasting >= FRESH_FOR_FOUR then 4 else 5
    {
      NoReloads(segment);
      RunsStayFew(INITIAL, rounds, before, segment, host, lasting, from);
    }
  }
}
