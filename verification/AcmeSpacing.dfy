/** How far apart the failed attempts for one host are (acme.go:181-210, acme.go:287-309). */
module AcmeSpacing {
  import opened Wrappers
  import opened Acme

  /** When the host failed, in order. */
  function Times(log: seq<Event>, host: string): seq<int> {
    if log == [] then []
    else
      var e := log[|log| - 1];
      Times(log[..|log| - 1], host) + if e.Failed? && e.host == host then [e.at] else []
  }

  function Reloads(log: seq<Event>): nat {
    if log == [] then 0
    else Reloads(log[..|log| - 1]) + if log[|log| - 1].Reload? then 1 else 0
  }

  predicate NoSuccess(log: seq<Event>, host: string) {
    forall e | e in log :: !(e.Obtained? && e.host == host)
  }

  function CountOf(f: Option<Failure>): nat {
    if f.Some? then f.value.count else 0
  }

  predicate Apart(times: seq<int>, gap: int) {
    forall k | 0 < k < |times| :: times[k] - times[k - 1] >= gap
  }

  /** After the k-th failure of a row that had already seen `seen` failures, at least the full backoff passes. */
  predicate BackedOff(times: seq<int>, seen: nat) {
    forall k | 0 < k < |times| :: times[k] - times[k - 1] >= Delay(seen + k)
  }

  lemma {:induction false} PowMonotone(a: nat, b: nat)
    requires a <= b
    ensures Pow2(a) <= Pow2(b)
    decreases b - a
  {
    if a < b {
      PowMonotone(a, b - 1);
    }
  }

  lemma DelayMonotone(a: nat, b: nat)
    requires 0 < a <= b
    ensures MIN_RETRY <= Delay(a) <= Delay(b) <= MAX_RETRY
  {
    var i := if a - 1 < 10 then a - 1 else 10;
    var j := if b - 1 < 10 then b - 1 else 10;
    assert Pow2(0) == 1;
    hide Pow2;
    PowMonotone(0, i);
    PowMonotone(i, j);
    CappedMonotone(1, Pow2(i));
    CappedMonotone(Pow2(i), Pow2(j));
  }

  lemma CappedMonotone(p: nat, q: nat)
    requires 1 <= p <= q
    ensures MIN_RETRY <= Earliest(MIN_RETRY * p, MAX_RETRY) <= Earliest(MIN_RETRY * q, MAX_RETRY) <= MAX_RETRY
  {
    assert MIN_RETRY == 300_000_000_000 && MAX_RETRY == 43_200_000_000_000;
  }

  lemma PatientPrefix(log: seq<Event>)
    requires Patient(log) && log != []
    ensures Patient(log[..|log| - 1])
    ensures IsAttempt(log[|log| - 1])
            ==> MayAttempt(log[..|log| - 1], log[|log| - 1].host, log[|log| - 1].at)
  {
    hide MayAttempt;
    var prefix := log[..|log| - 1];
    forall j | 0 <= j < |prefix| && IsAttempt(prefix[j])
      ensures MayAttempt(prefix[..j], prefix[j].host, prefix[j].at)
    {
      assert prefix[..j] == log[..j];
    }
  }

  /** A record never allows a retry within a minute of the failure it notes. */
  lemma NoteKeepsMinute(f: Option<Failure>, host: string, e: Event)
    requires f.Some? ==> f.value.retryAt >= f.value.failedAt + MINUTE
    ensures
      var g := NoteEvent(f, host, e);
      g.Some? ==> g.value.retryAt >= g.value.failedAt + MINUTE
  {
    if e.Failed? && e.host == host {
      DelayMonotone(CountOf(f) + 1, CountOf(f) + 1);
    }
  }

  lemma {:induction false} RecordKeepsMinute(log: seq<Event>, host: string)
    ensures
      var f := FailureAfter(log, host);
      f.Some? ==> f.value.retryAt >= f.value.failedAt + MINUTE
  {
    hide NoteEvent;
    if log != [] {
      RecordKeepsMinute(log[..|log| - 1], host);
      NoteKeepsMinute(FailureAfter(log[..|log| - 1], host), host, log[|log| - 1]);
    }
  }

  predicate Remembers(f: Option<Failure>, times: seq<int>) {
    times != [] ==> f.Some? && f.value.failedAt == times[|times| - 1]
  }

  /** Whatever reloads come between, failures without a success between them are a minute apart or more. */
  lemma {:induction false} MinuteApart(before: seq<Event>, segment: seq<Event>, host: string)
    requires Patient(before + segment) && NoSuccess(segment, host)
    ensures Apart(Times(segment, host), MINUTE)
    ensures Remembers(FailureAfter(before + segment, host), Times(segment, host))
    decreases |segment|
  {
    hide Patient, MayTry;
    if segment != [] {
      var n := |segment| - 1;
      var log, e := before + segment[..n], segment[n];
      assert before + segment == log + [e] && (before + segment)[..|before + segment| - 1] == log;
      PatientPrefix(before + segment);
      MinuteApart(before, segment[..n], host);
      RecordKeepsMinute(log, host);
      FailureAfterNext(log, host, e);
      MinuteStep(FailureAfter(log, host), Times(segment[..n], host), host, e);
    }
  }

  lemma MinuteStep(f: Option<Failure>, times: seq<int>, host: string, e: Event)
    requires Apart(times, MINUTE) && Remembers(f, times) && !(e.Obtained? && e.host == host)
    requires f.Some? ==> f.value.retryAt >= f.value.failedAt + MINUTE
    requires e.Failed? && e.host == host ==> MayTry(f, e.at)
    ensures
      var times' := times + if e.Failed? && e.host == host then [e.at] else [];
      Apart(times', MINUTE) && Remembers(NoteEvent(f, host, e), times')
  {
    hide Delay;
  }

  /** The record after failures with no reload and no success between them. */
  function RowRecord(f: Option<Failure>, times: seq<int>): Option<Failure> {
    if times == [] then f
    else
      var last := times[|times| - 1];
      Some(Failure(CountOf(f) + |times|, last, last + Delay(CountOf(f) + |times|)))
  }

  /** With no reload either, the k-th failure in a row is followed by the full backoff for k failures. */
  lemma {:induction false} FullBackoff(before: seq<Event>, segment: seq<Event>, host: string)
    requires Patient(before + segment) && NoSuccess(segment, host) && Reload !in segment
    ensures BackedOff(Times(segment, host), CountOf(FailureAfter(before, host)))
    ensures FailureAfter(before + segment, host) == RowRecord(FailureAfter(before, host), Times(segment, host))
    decreases |segment|
  {
    hide Patient, MayTry, RowRecord, NoteEvent;
    if segment == [] {
      assert before + segment == before;
      RowRecordEmpty(FailureAfter(before, host));
    } else {
      var n := |segment| - 1;
      var log, e := before + segment[..n], segment[n];
      assert before + segment == log + [e] && (before + segment)[..|before + segment| - 1] == log;
      PatientPrefix(before + segment);
      FullBackoff(before, segment[..n], host);
      FailureAfterNext(log, host, e);
      RowStep(FailureAfter(before, host), Times(segment[..n], host), host, e);
    }
  }

  lemma RowRecordEmpty(f: Option<Failure>)
    ensures RowRecord(f, []) == f
  {
  }

  lemma RowStep(f: Option<Failure>, times: seq<int>, host: string, e: Event)
    requires BackedOff(times, CountOf(f)) && !(e.Obtained? && e.host == host) && e != Reload
    requires e.Failed? && e.host == host ==> MayTry(RowRecord(f, times), e.at)
    ensures
      var times' := times + if e.Failed? && e.host == host then [e.at] else [];
      BackedOff(times', CountOf(f)) && NoteEvent(RowRecord(f, times), host, e) == RowRecord(f, times')
  {
    hide Delay;
  }

  // ----- Runs of the issuing loop -----

  /**
   Both for the loop itself, with any hosts, reloads, passes and interleavings: from an empty manager on, or from
   what an earlier run of the loop left.
   */
  lemma RunsAreSpaced(s: State, rounds: seq<Round>, before: seq<Event>, segment: seq<Event>, host: string)
    requires SoundState(s) && AfterRounds(s, rounds).0.log == before + segment && NoSuccess(segment, host)
    ensures Apart(Times(segment, host), MINUTE)
    ensures Reload !in segment ==> BackedOff(Times(segment, host), CountOf(FailureAfter(before, host)))
  {
    hide AfterRounds, Times, Apart, BackedOff;
    RunKeepsSound(s, rounds);
    MinuteApart(before, segment, host);
    if Reload !in segment {
      FullBackoff(before, segment, host);
    }
  }
}
