/**
 What the bounded, forgetful table promises: it is an LRU cache of clients,
 and under an exact condition nobody can tell it from one bucket per client
 that is kept for ever.
 */
module RateLimiterRefinement {
  import opened Wrappers
  import opened TokenBucket
  import opened RateLimiter

  // ----- Validation (policy.go:181-209) -----

  /** What the key of a policy says: a bucket per client, or one for all. */
  datatype Key = ClientIP | Global | Unsupported

  datatype Policy = Policy(requestsPerSecond: real, burst: int, maxKeys: int, idleTimeout: real, key: Key)

  predicate InRange(p: Policy) {
    p.requestsPerSecond > 0.0 && p.burst > 0 && p.maxKeys >= 0 && p.idleTimeout >= 0.0
  }

  /** The limits of a policy, and whether one bucket is shared by all clients. */
  function Compile(p: Policy): (r: Option<(Limits, bool)>)
    ensures r.Some? <==> InRange(p) && p.key != Unsupported
    ensures r.Some? ==>
              var (l, shared) := r.value;
              && l.Valid() && l.rate == p.requestsPerSecond && l.burst == p.burst && (shared <==> p.key == Global)
              && (p.maxKeys > 0 ==> l.maxKeys == p.maxKeys) && (p.idleTimeout > 0.0 ==> l.idle == p.idleTimeout)
              && (p.maxKeys == 0 ==> l.maxKeys == 10000) && (p.idleTimeout == 0.0 ==> l.idle == 600.0)
  {
    if p.requestsPerSecond <= 0.0 || p.burst <= 0 || p.maxKeys < 0 || p.idleTimeout < 0.0 then None
    else
      var limits := Limits(p.requestsPerSecond, p.burst,
                           if p.idleTimeout > 0.0 then p.idleTimeout else 600.0,
                           if p.maxKeys == 0 then 10000 else p.maxKeys);
      match p.key
      case ClientIP => Some((limits, false))
      case Global => Some((limits, true))
      case Unsupported => None
  }

  // ----- Runs -----

  datatype Request = Request(key: string, at: real)

  type Trace = seq<Request>

  predicate Monotone(trace: Trace, from: real) {
    trace == [] || (from <= trace[0].at && Monotone(trace[1..], trace[0].at))
  }

  function After(l: Limits, s: Table, trace: Trace): Table
    requires l.Valid()
    decreases trace
  {
    if trace == [] then s else After(l, Served(l, s, trace[0].key, trace[0].at).0, trace[1..])
  }

  function Answers(l: Limits, s: Table, trace: Trace): (answers: seq<bool>)
    requires l.Valid()
    ensures |answers| == |trace|
    decreases trace
  {
    if trace == [] then []
    else
      var (s', ok) := Served(l, s, trace[0].key, trace[0].at);
      [ok] + Answers(l, s', trace[1..])
  }

  predicate NeverEvicts(l: Limits, s: Table, trace: Trace)
    requires l.Valid()
    decreases trace
  {
    trace == [] ||
    (!Evicts(l, s, trace[0].key, trace[0].at) &&
     NeverEvicts(l, Served(l, s, trace[0].key, trace[0].at).0, trace[1..]))
  }

  // ----- The table is an LRU cache -----

  predicate MostRecentFirst(s: Table) {
    forall i, j | 0 <= i < j < |s| :: s[j].seen <= s[i].seen
  }

  predicate SeenBy(s: Table, now: real) {
    forall e | e in s :: e.seen <= now
  }

  predicate NoneIdle(l: Limits, s: Table, now: real) {
    forall e | e in s :: now - e.seen < l.idle
  }

  lemma {:induction false} ExpireDropsIdle(l: Limits, s: Table, now: real)
    ensures forall e | e in s && e !in Expire(l, s, now) :: now - e.seen >= l.idle
    ensures MostRecentFirst(s) ==> NoneIdle(l, Expire(l, s, now), now)
  {
    if s != [] && now - s[|s| - 1].seen >= l.idle {
      var shorter := s[..|s| - 1];
      ExpireDropsIdle(l, shorter, now);
      assert forall e | e in s :: e in shorter || e == s[|s| - 1];
    }
  }

  lemma OthersAreLive(l: Limits, live: Table, key: string)
    requires l.Valid() && DistinctKeys(live)
    ensures var others := Others(l, live, key);
            DistinctKeys(others) && |others| <= |live|
            && (MostRecentFirst(live) ==> MostRecentFirst(others))
            && (forall e | e in others :: e in live && e.key != key)
  {
    var i, others := Find(live, key), Others(l, live, key);
    assert forall j | 0 <= j < |others| :: others[j] == live[if j < i then j else j + 1];
  }

  lemma LivePrefix(l: Limits, s: Table, now: real)
    ensures var live := Expire(l, s, now);
            (DistinctKeys(s) ==> DistinctKeys(live)) && (MostRecentFirst(s) ==> MostRecentFirst(live))
            && |live| <= |s| && forall e | e in live :: e in s
  {
    var live := Expire(l, s, now);
    assert forall i | 0 <= i < |live| :: live[i] == s[i];
  }

  /** One call, whatever the clock does: keys stay distinct, the size stays bounded. */
  lemma ServedKeepsTable(l: Limits, s: Table, key: string, now: real)
    requires l.Valid() && WellFormed(l, s)
    ensures WellFormed(l, Served(l, s, key, now).0)
    ensures Evicts(l, s, key, now) ==> Expire(l, s, now) != []
  {
    LivePrefix(l, s, now);
    var live := Expire(l, s, now);
    OthersAreLive(l, live, key);
    assert |Others(l, live, key)| < l.maxKeys;
  }

  lemma EvictsOldest(l: Limits, live: Table, key: string)
    requires l.Valid() && MostRecentFirst(live) && Find(live, key) == |live| >= l.maxKeys
    ensures Others(l, live, key) == live[..|live| - 1]
    ensures forall e | e in live :: live[|live| - 1].seen <= e.seen
  {
  }

  /** One call with a clock that has not gone back. */
  lemma ServedIsLru(l: Limits, s: Table, key: string, now: real)
    requires l.Valid() && WellFormed(l, s) && MostRecentFirst(s) && SeenBy(s, now)
    ensures var s' := Served(l, s, key, now).0;
            MostRecentFirst(s') && SeenBy(s', now) && NoneIdle(l, s', now)
    ensures Evicts(l, s, key, now) ==>
              var live := Expire(l, s, now);
              live != [] && Served(l, s, key, now).0[1..] == live[..|live| - 1]
              && forall e | e in live :: live[|live| - 1].seen <= e.seen
  {
    hide Take, Level, Expire, Find, Others, DistinctKeys, MostRecentFirst, SeenBy, NoneIdle;
    ExpireDropsIdle(l, s, now);
    LivePrefix(l, s, now);
    var live := Expire(l, s, now);
    OthersAreLive(l, live, key);
    var others := Others(l, live, key);
    var s' := Served(l, s, key, now).0;
    assert s' == [s'[0]] + others && s'[1..] == others;
    FrontIsLatest(l, s, live, s'[0], others, now);
    if Evicts(l, s, key, now) {
      EvictsOldest(l, live, key);
    }
  }

  /** The client served now goes in front of live ones, which all come from `s`. */
  lemma FrontIsLatest(l: Limits, s: Table, live: Table, front: Entry, others: Table, now: real)
    requires l.Valid() && SeenBy(s, now) && front.seen == now
    requires NoneIdle(l, live, now) && MostRecentFirst(others)
    requires (forall e | e in live :: e in s) && forall e | e in others :: e in live
    ensures var s' := [front] + others;
            MostRecentFirst(s') && SeenBy(s', now) && NoneIdle(l, s', now)
  {
    var s' := [front] + others;
    assert forall e | e in s' :: e == front || e in others;
    assert forall i | 0 < i < |s'| :: s'[i] == others[i - 1] && others[i - 1] in others;
  }

  /** Over every run from an empty table. */
  lemma {:induction false} RunsKeepTable(l: Limits, s: Table, trace: Trace, from: real)
    requires l.Valid() && WellFormed(l, s)
    ensures WellFormed(l, After(l, s, trace))
    ensures MostRecentFirst(s) && SeenBy(s, from) && Monotone(trace, from) ==>
              && MostRecentFirst(After(l, s, trace))
              && (trace != [] ==> NoneIdle(l, After(l, s, trace), trace[|trace| - 1].at))
    decreases trace
  {
    if trace != [] {
      var r := trace[0];
      var s' := Served(l, s, r.key, r.at).0;
      ServedKeepsTable(l, s, r.key, r.at);
      if MostRecentFirst(s) && SeenBy(s, from) && Monotone(trace, from) {
        ServedIsLru(l, s, r.key, r.at);
      }
      RunsKeepTable(l, s', trace[1..], r.at);
      if |trace| > 1 { assert trace[1..][|trace| - 2] == trace[|trace| - 1]; }
    }
  }

  // ----- The reference: one bucket per client, never forgotten -----

  type Buckets = map<string, Bucket>

  function BucketOf(l: Limits, m: Buckets, key: string): Bucket {
    if key in m then m[key] else Fresh(l)
  }

  function RefServed(l: Limits, m: Buckets, key: string, now: real): (Buckets, bool) {
    var (bucket, ok) := Take(l, BucketOf(l, m, key), now);
    (m[key := bucket], ok)
  }

  function RefAnswers(l: Limits, m: Buckets, trace: Trace): (answers: seq<bool>)
    ensures |answers| == |trace|
    decreases trace
  {
    if trace == [] then []
    else
      var (m', ok) := RefServed(l, m, trace[0].key, trace[0].at);
      [ok] + RefAnswers(l, m', trace[1..])
  }

  /** The clock has not gone back behind any bucket. */
  predicate Clocked(l: Limits, m: Buckets, now: real) {
    forall k | k in m :: Sound(l, m[k]) && m[k].last <= now
  }

  lemma RefServedClocked(l: Limits, m: Buckets, key: string, now: real)
    requires l.Valid() && Clocked(l, m, now)
    ensures Clocked(l, RefServed(l, m, key, now).0, now)
  {
    TakeKeepsSound(l, BucketOf(l, m, key), now);
    FreshIsFull(l, now);
  }

  predicate Tracked(s: Table, key: string) {
    exists e :: e in s && e.key == key
  }

  /** Tracked clients have their own bucket; forgotten ones have a full one. */
  predicate Simulates(l: Limits, s: Table, m: Buckets, now: real) {
    && DistinctKeys(s)
    && (forall e | e in s :: e.key in m && m[e.key] == e.bucket && e.bucket.last <= e.seen <= now)
    && (forall k | k in m :: Sound(l, m[k]) && m[k].last <= now)
    && (forall k | k in m && !Tracked(s, k) :: Level(l, m[k], now) == l.burst as real)
  }

  lemma IdleBucketIsFull(l: Limits, b: Bucket, seen: real, now: real)
    requires l.Valid() && Sound(l, b) && b.last <= seen && now - seen >= l.idle
    requires l.rate * l.idle >= l.burst as real
    ensures Level(l, b, now) == l.burst as real
  {
    Scale(l.rate, l.idle, now - b.last);
  }

  /** Time passing, and dropping idle clients, keeps the simulation. */
  lemma ExpireSimulates(l: Limits, s: Table, m: Buckets, before: real, now: real)
    requires l.Valid() && l.rate * l.idle >= l.burst as real
    requires Simulates(l, s, m, before) && before <= now
    ensures Simulates(l, Expire(l, s, now), m, now)
  {
    var live := Expire(l, s, now);
    ExpireDropsIdle(l, s, now);
    assert forall i | 0 <= i < |live| :: live[i] == s[i] && live[i] in s;
    forall k | k in m && !Tracked(live, k)
      ensures Level(l, m[k], now) == l.burst as real
    {
      if Tracked(s, k) {
        var e :| e in s && e.key == k;
        IdleBucketIsFull(l, m[k], e.seen, now);
      } else {
        LevelGrowth(l, m[k], before, now);
      }
    }
  }

  lemma RefServedSimulates(l: Limits, live: Table, m: Buckets, key: string, now: real)
    requires l.Valid() && Simulates(l, live, m, now)
    requires Find(live, key) < |live| || |live| < l.maxKeys
    ensures var (bucket, ok) := Take(l, BucketOf(l, m, key), now);
            Simulates(l, [Entry(key, bucket, now)] + Others(l, live, key), RefServed(l, m, key, now).0, now)
  {
    hide Take;
    var m' := RefServed(l, m, key, now).0;
    OthersAreLive(l, live, key);
    RefServedClocked(l, m, key, now);
    OthersAreKept(l, live, key);
    FrontSimulates(l, live, m, Entry(key, m'[key], now), Others(l, live, key), now);
  }

  /** The client served now goes in front of the others. */
  lemma FrontSimulates(l: Limits, live: Table, m: Buckets, front: Entry, others: Table, now: real)
    requires l.Valid() && Simulates(l, live, m, now) && Clocked(l, m[front.key := front.bucket], now)
    requires front.seen == now && DistinctKeys(others) && forall e | e in others :: e in live && e.key != front.key
    requires forall e | e in live && e.key != front.key :: e in others
    ensures Simulates(l, [front] + others, m[front.key := front.bucket], now)
  {
    hide Level, Sound;
    var s', m' := [front] + others, m[front.key := front.bucket];
    assert forall i | 0 < i < |s'| :: s'[i] == others[i - 1] && others[i - 1] in others;
    hide DistinctKeys;
    assert s'[0] in s' && forall e | e in s' :: e == front || e in others;
    forall k | k in m' && !Tracked(s', k)
      ensures k in m && !Tracked(live, k) && m'[k] == m[k]
    {
      assert front in s' && forall e | e in others :: e in s';
    }
  }

  lemma OthersAreKept(l: Limits, live: Table, key: string)
    requires l.Valid() && DistinctKeys(live)
    requires Find(live, key) < |live| || |live| < l.maxKeys
    ensures forall e | e in live && e.key != key :: e in Others(l, live, key)
  {
    var i, others := Find(live, key), Others(l, live, key);
    forall e | e in live && e.key != key
      ensures e in others
    {
      var j :| 0 <= j < |live| && live[j] == e;
      assert others[if j < i then j else j - 1] == e;
    }
  }

  /** Main step: the same answer, and the simulation goes on. */
  lemma StepRefines(l: Limits, s: Table, m: Buckets, before: real, key: string, now: real)
    requires l.Valid() && l.rate * l.idle >= l.burst as real
    requires Simulates(l, s, m, before) && before <= now
    requires !Evicts(l, s, key, now)
    ensures Served(l, s, key, now).1 == RefServed(l, m, key, now).1
    ensures Simulates(l, Served(l, s, key, now).0, RefServed(l, m, key, now).0, now)
  {
    var live := Expire(l, s, now);
    ExpireSimulates(l, s, m, before, now);
    var i := Find(live, key);
    RefServedSimulates(l, live, m, key, now);
    if i < |live| {
      assert live[i] in live;
    } else {
      assert !Tracked(live, key);
      FreshIsFull(l, now);
      SameLevelSameTake(l, BucketOf(l, m, key), Fresh(l), now);
    }
  }

  lemma {:induction false} RunRefines(l: Limits, s: Table, m: Buckets, before: real, trace: Trace)
    requires l.Valid() && l.rate * l.idle >= l.burst as real
    requires Simulates(l, s, m, before) && Monotone(trace, before) && NeverEvicts(l, s, trace)
    ensures Answers(l, s, trace) == RefAnswers(l, m, trace)
    decreases trace
  {
    if trace != [] {
      var r := trace[0];
      StepRefines(l, s, m, before, r.key, r.at);
      RunRefines(l, Served(l, s, r.key, r.at).0, RefServed(l, m, r.key, r.at).0, r.at, trace[1..]);
    }
  }

  // ----- With few clients nobody is evicted -----

  function KeysOf(s: Table): set<string> {
    set e | e in s :: e.key
  }

  lemma {:induction false} CountKeys(s: Table)
    requires DistinctKeys(s)
    ensures |KeysOf(s)| == |s|
  {
    if s != [] {
      var n := |s| - 1;
      CountKeys(s[..n]);
      assert s == s[..n] + [s[n]];
      assert KeysOf(s) == KeysOf(s[..n]) + {s[n].key};
      assert s[n].key !in KeysOf(s[..n]);
    }
  }

  lemma SubsetIsSmaller<T>(a: set<T>, b: set<T>)
    requires a <= b
    ensures |a| <= |b|
  {
    if a != {} {
      var x :| x in a;
      SubsetIsSmaller(a - {x}, b - {x});
    }
  }

  /** Serving one of at most `maxKeys` clients evicts nobody. */
  lemma RoomForAll(l: Limits, s: Table, key: string, now: real, clients: set<string>)
    requires l.Valid() && WellFormed(l, s) && KeysOf(s) <= clients && key in clients && |clients| <= l.maxKeys
    ensures !Evicts(l, s, key, now) && KeysOf(Served(l, s, key, now).0) <= clients
  {
    hide Take, Level, Expire, Others, Find;
    LivePrefix(l, s, now);
    var live := Expire(l, s, now);
    OthersAreLive(l, live, key);
    assert KeysOf(live) <= clients;
    if Evicts(l, s, key, now) {
      CountKeys(live);
      NotFoundIsAbsent(live, key);
      assert KeysOf(live) <= clients - {key};
      SubsetIsSmaller(KeysOf(live), clients - {key});
      assert false;
    }
  }

  lemma NotFoundIsAbsent(s: Table, key: string)
    requires Find(s, key) == |s|
    ensures key !in KeysOf(s)
  {
  }

  lemma {:induction false} FewClientsStay(l: Limits, s: Table, trace: Trace, clients: set<string>)
    requires l.Valid() && WellFormed(l, s) && KeysOf(s) <= clients && |clients| <= l.maxKeys
    requires forall r | r in trace :: r.key in clients
    ensures NeverEvicts(l, s, trace)
    decreases trace
  {
    hide WellFormed, KeysOf, Served, Evicts;
    if trace != [] {
      var r := trace[0];
      RoomForAll(l, s, r.key, r.at, clients);
      ServedKeepsTable(l, s, r.key, r.at);
      FewClientsStay(l, Served(l, s, r.key, r.at).0, trace[1..], clients);
    }
  }

  /** So with no more clients than the table holds, every answer is that of everlasting buckets. */
  lemma FewClientsRefine(l: Limits, trace: Trace, from: real, clients: set<string>)
    requires l.Valid() && l.rate * l.idle >= l.burst as real && Monotone(trace, from)
    requires |clients| <= l.maxKeys && forall r | r in trace :: r.key in clients
    ensures Answers(l, [], trace) == RefAnswers(l, map[], trace)
  {
    FewClientsStay(l, [], trace, clients);
    RunRefines(l, [], map[], from, trace);
  }

  // ----- At most burst + rate * W admissions in a window of length W -----

  function Admitted(trace: Trace, answers: seq<bool>, key: string): nat
    requires |trace| == |answers|
  {
    if trace == [] then 0
    else (if trace[0].key == key && answers[0] then 1 else 0) + Admitted(trace[1..], answers[1..], key)
  }

  lemma LevelOfClient(l: Limits, m: Buckets, key: string, t: real, u: real)
    requires l.Valid() && Clocked(l, m, t) && t <= u
    ensures Level(l, BucketOf(l, m, key), u) <= Level(l, BucketOf(l, m, key), t) + l.rate * (u - t)
    ensures Level(l, BucketOf(l, m, key), u) <= l.burst as real
  {
    if key in m {
      LevelGrowth(l, m[key], t, u);
    } else {
      FreshIsFull(l, t);
      FreshIsFull(l, u);
      Scale(l.rate, 0.0, u - t);
    }
  }

  lemma {:induction false} RefWindow(l: Limits, m: Buckets, trace: Trace, key: string, from: real, until: real,
                                     allowance: real)
    requires l.Valid() && Clocked(l, m, from) && Monotone(trace, from)
    requires from <= until && forall r | r in trace :: r.at <= until
    requires Level(l, BucketOf(l, m, key), from) + l.rate * (until - from) <= allowance
    ensures Admitted(trace, RefAnswers(l, m, trace), key) as real <= allowance
    decreases trace
  {
    hide Level, Admitted, RefAnswers;
    if trace == [] {
      Gain(l.rate, until - from);
      LevelIsSound(l, m, key, from);
      NoneAdmitted(l, m, key);
    } else {
      var r := trace[0];
      var (m', ok) := RefServed(l, m, r.key, r.at);
      var granted := if r.key == key && ok then 1 else 0;
      assert r in trace;
      StepWindow(l, m, r, key, from, until);
      RefServedClocked(l, m, r.key, r.at);
      RefWindow(l, m', trace[1..], key, r.at, until, allowance - granted as real);
      AdmittedStep(l, m, trace, key);
    }
  }

  lemma NoneAdmitted(l: Limits, m: Buckets, key: string)
    ensures Admitted([], RefAnswers(l, m, []), key) == 0
  {
  }

  lemma AdmittedStep(l: Limits, m: Buckets, trace: Trace, key: string)
    requires trace != []
    ensures RefAnswers(l, m, trace)[1..] == RefAnswers(l, RefServed(l, m, trace[0].key, trace[0].at).0, trace[1..])
    ensures var (m', ok) := RefServed(l, m, trace[0].key, trace[0].at);
            Admitted(trace, RefAnswers(l, m, trace), key)
            == (if trace[0].key == key && ok then 1 else 0) + Admitted(trace[1..], RefAnswers(l, m', trace[1..]), key)
  {
    var (m', ok) := RefServed(l, m, trace[0].key, trace[0].at);
    assert RefAnswers(l, m, trace)[1..] == RefAnswers(l, m', trace[1..]);
  }

  /** The first request of a window spends what it is granted from the allowance. */
  lemma StepWindow(l: Limits, m: Buckets, r: Request, key: string, from: real, until: real)
    requires l.Valid() && Clocked(l, m, from) && from <= r.at <= until
    ensures var (m', ok) := RefServed(l, m, r.key, r.at);
            Level(l, BucketOf(l, m', key), r.at) + l.rate * (until - r.at)
            <= Level(l, BucketOf(l, m, key), from) + l.rate * (until - from)
               - (if r.key == key && ok then 1.0 else 0.0)
  {
    LevelOfClient(l, m, key, from, r.at);
    LevelAfterTake(l, BucketOf(l, m, r.key), r.at);
    AddWindows(l.rate, from, r.at, until);
  }

  lemma AddWindows(rate: real, from: real, at: real, until: real)
    ensures rate * (until - from) == rate * (at - from) + rate * (until - at)
  {
  }

  lemma LevelIsSound(l: Limits, m: Buckets, key: string, now: real)
    requires l.Valid() && Clocked(l, m, now)
    ensures 0.0 <= Level(l, BucketOf(l, m, key), now)
  {
    var b := BucketOf(l, m, key);
    Gain(l.rate, if now < b.last then 0.0 else now - b.last);
  }

  lemma LevelAfterTake(l: Limits, b: Bucket, now: real)
    requires l.Valid()
    ensures var (b', ok) := Take(l, b, now);
            Level(l, b', now) == Level(l, b, now) - (if ok then 1.0 else 0.0)
  {
    var (b', ok) := Take(l, b, now);
    if ok {
      Gain(l.rate, now - now);
      LevelAt(l, b', now, l.rate * (now - now));
    }
  }

  lemma {:induction false} RefPrefix(l: Limits, m: Buckets, trace: Trace, j: nat)
    requires j <= |trace|
    ensures RefAnswers(l, m, trace[..j]) == RefAnswers(l, m, trace)[..j]
    decreases trace
  {
    if j > 0 {
      var r := trace[0];
      var m' := RefServed(l, m, r.key, r.at).0;
      RefPrefix(l, m', trace[1..], j - 1);
      assert trace[..j][1..] == trace[1..][..j - 1];
    }
  }

  lemma {:induction false} MonotonePrefix(trace: Trace, from: real, j: nat)
    requires j <= |trace| && Monotone(trace, from)
    ensures Monotone(trace[..j], from)
    ensures forall r | r in trace[..j] :: from <= r.at <= trace[j - 1].at
  {
    if j > 0 {
      MonotonePrefix(trace[1..], trace[0].at, j - 1);
      assert trace[..j] == [trace[0]] + trace[1..][..j - 1];
      if j > 1 { assert trace[1..][j - 2] == trace[j - 1] && trace[j - 1] in trace[1..][..j - 1]; }
    }
  }

  /** Any contiguous part of a run of the reference. */
  lemma {:induction false} RefWindowInRun(l: Limits, m: Buckets, trace: Trace, key: string, from: real, i: nat,
                                          j: nat, allowance: real)
    requires l.Valid() && Clocked(l, m, from) && Monotone(trace, from) && i < j <= |trace|
    requires l.burst as real + l.rate * (trace[j - 1].at - trace[i].at) <= allowance
    ensures Admitted(trace[i..j], RefAnswers(l, m, trace)[i..j], key) as real <= allowance
    decreases trace
  {
    hide Level, Admitted, RefAnswers, RefServed, Clocked;
    if i == 0 {
      RefWindowAtStart(l, m, trace, key, from, j, allowance);
      assert trace[0..j] == trace[..j] && RefAnswers(l, m, trace)[0..j] == RefAnswers(l, m, trace)[..j];
    } else {
      var m' := RefServed(l, m, trace[0].key, trace[0].at).0;
      ClockedLater(l, m, from, trace[0].at);
      RefServedClocked(l, m, trace[0].key, trace[0].at);
      RefWindowInRun(l, m', trace[1..], key, trace[0].at, i - 1, j - 1, allowance);
      AdmittedStep(l, m, trace, key);
      SliceOfTail(trace, i, j);
      SliceOfTail(RefAnswers(l, m, trace), i, j);
    }
  }

  lemma ClockedLater(l: Limits, m: Buckets, from: real, now: real)
    requires Clocked(l, m, from) && from <= now
    ensures Clocked(l, m, now)
  {
  }

  lemma SliceOfTail<T>(s: seq<T>, i: nat, j: nat)
    requires 0 < i <= j <= |s|
    ensures s[1..][i - 1..j - 1] == s[i..j]
  {
  }

  lemma RefWindowAtStart(l: Limits, m: Buckets, trace: Trace, key: string, from: real, j: nat, allowance: real)
    requires l.Valid() && Clocked(l, m, from) && Monotone(trace, from) && 0 < j <= |trace|
    requires l.burst as real + l.rate * (trace[j - 1].at - trace[0].at) <= allowance
    ensures Admitted(trace[..j], RefAnswers(l, m, trace)[..j], key) as real <= allowance
  {
    hide Level, Admitted, RefAnswers;
    var start, until := trace[0].at, trace[j - 1].at;
    RefPrefix(l, m, trace, j);
    MonotonePrefix(trace, start, j);
    LevelOfClient(l, m, key, from, start);
    RefWindow(l, m, trace[..j], key, start, until, allowance);
  }

  /** Main result: the limiter admits no client more than burst + rate * W times in W seconds. */
  lemma WindowBound(l: Limits, trace: Trace, from: real, key: string, i: nat, j: nat)
    requires l.Valid() && l.rate * l.idle >= l.burst as real
    requires Monotone(trace, from) && NeverEvicts(l, [], trace) && i < j <= |trace|
    ensures Admitted(trace[i..j], Answers(l, [], trace)[i..j], key) as real
            <= l.burst as real + l.rate * (trace[j - 1].at - trace[i].at)
  {
    RunRefines(l, [], map[], from, trace);
    RefWindowInRun(l, map[], trace, key, from, i, j, l.burst as real + l.rate * (trace[j - 1].at - trace[i].at));
  }

  // ----- One bucket for all -----

  /** The answers of a policy with one bucket for all clients (policy.go:213-215). */
  function SharedAnswers(l: Limits, b: Bucket, trace: Trace): (answers: seq<bool>)
    ensures |answers| == |trace|
    decreases trace
  {
    if trace == [] then []
    else
      var (b', ok) := Take(l, b, trace[0].at);
      [ok] + SharedAnswers(l, b', trace[1..])
  }

  /** The same requests, all from one client. */
  function AsOne(trace: Trace): (one: Trace)
    ensures |one| == |trace| && forall i | 0 <= i < |trace| :: one[i] == Request("", trace[i].at)
    decreases trace
  {
    if trace == [] then [] else [Request("", trace[0].at)] + AsOne(trace[1..])
  }

  function Granted(answers: seq<bool>): nat {
    if answers == [] then 0 else (if answers[0] then 1 else 0) + Granted(answers[1..])
  }

  /** It answers everybody as it would answer a single client. */
  lemma {:induction false} SharedIsOneClient(l: Limits, m: Buckets, trace: Trace)
    ensures SharedAnswers(l, BucketOf(l, m, ""), trace) == RefAnswers(l, m, AsOne(trace))
    decreases trace
  {
    if trace != [] {
      SharedIsOneClient(l, RefServed(l, m, "", trace[0].at).0, trace[1..]);
      assert AsOne(trace)[1..] == AsOne(trace[1..]);
    }
  }

  lemma {:induction false} AsOneMonotone(trace: Trace, from: real)
    requires Monotone(trace, from)
    ensures Monotone(AsOne(trace), from)
  {
    if trace != [] {
      AsOneMonotone(trace[1..], trace[0].at);
      assert AsOne(trace)[1..] == AsOne(trace[1..]);
    }
  }

  lemma {:induction false} GrantedToOne(trace: Trace, answers: seq<bool>)
    requires |trace| == |answers| && forall r | r in trace :: r.key == ""
    ensures Admitted(trace, answers, "") == Granted(answers)
    decreases trace
  {
    if trace != [] {
      GrantedToOne(trace[1..], answers[1..]);
    }
  }

  /** One bucket for all admits burst + rate * W requests of all clients together in W seconds; it forgets nobody. */
  lemma SharedWindowBound(l: Limits, trace: Trace, from: real, i: nat, j: nat)
    requires l.Valid() && Monotone(trace, from) && i < j <= |trace|
    ensures Granted(SharedAnswers(l, Fresh(l), trace)[i..j]) as real
            <= l.burst as real + l.rate * (trace[j - 1].at - trace[i].at)
  {
    hide SharedAnswers, RefAnswers, Admitted, Granted, Monotone;
    var one, answers := AsOne(trace), SharedAnswers(l, Fresh(l), trace);
    SharedIsOneClient(l, map[], trace);
    AsOneMonotone(trace, from);
    RefWindowInRun(l, map[], one, "", from, i, j, l.burst as real + l.rate * (one[j - 1].at - one[i].at));
    GrantedToOne(one[i..j], answers[i..j]);
  }

  // ----- Forgetting is invisible exactly when an idle bucket refills -----

  ghost predicate ForgettingIsInvisible(l: Limits)
    requires l.Valid()
  {
    forall trace: Trace, from: real | Monotone(trace, from) && NeverEvicts(l, [], trace) ::
      Answers(l, [], trace) == RefAnswers(l, map[], trace)
  }

  function Repeat(key: string, at: real, n: nat): (trace: Trace)
    ensures |trace| == n && forall r | r in trace :: r == Request(key, at)
  {
    if n == 0 then [] else [Request(key, at)] + Repeat(key, at, n - 1)
  }

  predicate AllTrue(answers: seq<bool>) {
    forall i | 0 <= i < |answers| :: answers[i]
  }

  function Available(l: Limits, s: Table, at: real): real {
    if Expire(l, s, at) == [] then l.burst as real else Level(l, Expire(l, s, at)[0].bucket, at)
  }

  predicate Alone(s: Table, key: string) {
    s == [] || (|s| == 1 && s[0].key == key)
  }

  lemma SpendOne(l: Limits, s: Table, key: string, at: real)
    requires l.Valid() && Alone(s, key) && 1.0 <= Available(l, s, at)
    ensures var left := Available(l, s, at) - 1.0;
            Served(l, s, key, at) == ([Entry(key, Bucket(left, at), at)], true) && !Evicts(l, s, key, at)
            && Available(l, Served(l, s, key, at).0, at) == left
  {
    var live := Expire(l, s, at);
    assert live == [] || live == s;
    FreshIsFull(l, at);
    Gain(l.rate, 0.0);
    var s' := Served(l, s, key, at).0;
    assert Find(live, key) == 0;
    assert Others(l, live, key) == [];
    assert s' == [s'[0]];
    assert Expire(l, s', at) == s';
    var left := Available(l, s, at) - 1.0;
    assert Level(l, Bucket(left, at), at) == Min(left + l.rate * 0.0, l.burst as real);
  }

  /** A lone client spends what it has. */
  lemma {:induction false} SpendAll(l: Limits, s: Table, key: string, at: real, n: nat)
    requires l.Valid() && Alone(s, key) && n as real <= Available(l, s, at)
    ensures AllTrue(Answers(l, s, Repeat(key, at, n))) && NeverEvicts(l, s, Repeat(key, at, n))
    ensures n > 0 ==> After(l, s, Repeat(key, at, n)) == [Entry(key, Bucket(Available(l, s, at) - n as real, at), at)]
    decreases n
  {
    if n > 0 {
      var trace := Repeat(key, at, n);
      SpendOne(l, s, key, at);
      var s' := Served(l, s, key, at).0;
      assert trace[1..] == Repeat(key, at, n - 1);
      SpendAll(l, s', key, at, n - 1);
      assert After(l, s, trace) == After(l, s', trace[1..]);
    }
  }

  lemma {:induction false} RunAppend(l: Limits, s: Table, a: Trace, b: Trace)
    requires l.Valid()
    ensures Answers(l, s, a + b) == Answers(l, s, a) + Answers(l, After(l, s, a), b)
    ensures NeverEvicts(l, s, a + b) <==> NeverEvicts(l, s, a) && NeverEvicts(l, After(l, s, a), b)
    decreases a
  {
    hide Served, Evicts;
    if a == [] {
      assert a + b == b;
    } else {
      assert (a + b)[1..] == a[1..] + b;
      RunAppend(l, Served(l, s, a[0].key, a[0].at).0, a[1..], b);
    }
  }

  lemma {:induction false} RepeatMonotone(key: string, at: real, n: nat, from: real)
    requires from <= at
    ensures Monotone(Repeat(key, at, n), from)
  {
    if n > 0 {
      assert Repeat(key, at, n)[1..] == Repeat(key, at, n - 1);
      RepeatMonotone(key, at, n - 1, at);
    }
  }

  lemma {:induction false} MonotoneAppend(a: Trace, b: Trace, from: real, mid: real)
    requires Monotone(a, from) && from <= mid && Monotone(b, mid) && forall r | r in a :: r.at <= mid
    ensures Monotone(a + b, from)
  {
    if a == [] {
      assert a + b == b;
    } else {
      assert (a + b)[1..] == a[1..] + b;
      MonotoneAppend(a[1..], b, a[0].at, mid);
    }
  }

  lemma {:induction false} AllAdmitted(trace: Trace, answers: seq<bool>, key: string)
    requires |trace| == |answers| && AllTrue(answers) && forall r | r in trace :: r.key == key
    ensures Admitted(trace, answers, key) == |trace|
  {
    if trace != [] {
      AllAdmitted(trace[1..], answers[1..], key);
    }
  }

  /**
   A client that spends its burst, idles until it is forgotten and comes back
   gets more than the rate allows, when idling does not refill the bucket.
   */
  lemma ForgettingShows(l: Limits, key: string) returns (trace: Trace)
    requires l.Valid() && l.rate * l.idle < l.burst as real
    ensures Monotone(trace, 0.0) && NeverEvicts(l, [], trace)
    ensures AllTrue(Answers(l, [], trace)) && !AllTrue(RefAnswers(l, map[], trace))
  {
    hide Answers, RefAnswers, AllTrue, NeverEvicts, Monotone;
    Scale(l.rate, 0.0, l.idle);
    assert l.idle - 0.0 == l.idle;
    var refill := l.rate * l.idle;
    var extra := refill.Floor + 1;
    trace := Repeat(key, 0.0, l.burst) + Repeat(key, l.idle, extra);
    SpendTwice(l, key, extra);
    RepeatMonotone(key, 0.0, l.burst, 0.0);
    RepeatMonotone(key, l.idle, extra, l.idle);
    MonotoneAppend(Repeat(key, 0.0, l.burst), Repeat(key, l.idle, extra), 0.0, l.idle);
    RefRefuses(l, key, trace, l.idle, l.burst as real + refill);
  }

  /** An everlasting bucket refuses some of a run that is longer than the bucket allows. */
  lemma RefRefuses(l: Limits, key: string, trace: Trace, until: real, allowance: real)
    requires l.Valid() && Monotone(trace, 0.0) && 0.0 <= until
    requires forall r | r in trace :: r.key == key && r.at <= until
    requires l.burst as real + l.rate * (until - 0.0) <= allowance < |trace| as real
    ensures !AllTrue(RefAnswers(l, map[], trace))
  {
    hide Level, RefAnswers, AllTrue, Admitted, Monotone;
    if AllTrue(RefAnswers(l, map[], trace)) {
      AllAdmitted(trace, RefAnswers(l, map[], trace), key);
      FreshIsFull(l, 0.0);
      RefWindow(l, map[], trace, key, 0.0, until, allowance);
      assert false;
    }
  }

  /** The limiter itself admits a whole burst before, and again after, the client was forgotten. */
  lemma SpendTwice(l: Limits, key: string, n: nat)
    requires l.Valid() && n <= l.burst
    ensures var trace := Repeat(key, 0.0, l.burst) + Repeat(key, l.idle, n);
            AllTrue(Answers(l, [], trace)) && NeverEvicts(l, [], trace)
  {
    var first, second := Repeat(key, 0.0, l.burst), Repeat(key, l.idle, n);
    SpendAll(l, [], key, 0.0, l.burst);
    var s := After(l, [], first);
    assert |s| == 1 && s[0].seen == 0.0 && Expire(l, s, l.idle) == Expire(l, s[..0], l.idle);
    SpendAll(l, s, key, l.idle, n);
    RunAppend(l, [], first, second);
  }

  /** Main result: idle clients can be forgotten unnoticed if and only if an idle bucket refills. */
  lemma ForgettingInvisibleIff(l: Limits)
    requires l.Valid()
    ensures ForgettingIsInvisible(l) <==> l.rate * l.idle >= l.burst as real
  {
    if l.rate * l.idle >= l.burst as real {
      forall trace: Trace, from: real | Monotone(trace, from) && NeverEvicts(l, [], trace)
        ensures Answers(l, [], trace) == RefAnswers(l, map[], trace)
      {
        RunRefines(l, [], map[], from, trace);
      }
    } else {
      var trace := ForgettingShows(l, "");
      assert Answers(l, [], trace) != RefAnswers(l, map[], trace);
    }
  }
}
