/**
 The token bucket behind every rate limit. It follows golang.org/x/time/rate
 (not part of the repository): refill at a constant rate, cap at the burst, take one
 token per request, and leave the bucket untouched when a request is refused.
 Times are real seconds.
 */
module TokenBucket {
  /** A compiled rate-limit policy (policy.go, newRateLimiter). */
  datatype Limits = Limits(rate: real, burst: nat, idle: real, maxKeys: nat) {
    predicate Valid() {
      rate > 0.0 && burst > 0 && idle > 0.0 && maxKeys > 0
    }
  }

  datatype Bucket = Bucket(tokens: real, last: real)

  function Fresh(l: Limits): Bucket {
    Bucket(l.burst as real, 0.0)
  }

  function Min(a: real, b: real): real {
    if b < a then b else a
  }

  function Gained(rate: real, seconds: real): real {
    rate * seconds
  }

  /** Tokens available at `now`; time never runs backwards for a bucket. */
  function Level(l: Limits, b: Bucket, now: real): real {
    Min(b.tokens + if now < b.last then 0.0 else Gained(l.rate, now - b.last), l.burst as real)
  }

  function Take(l: Limits, b: Bucket, now: real): (Bucket, bool) {
    var tokens := Level(l, b, now) - 1.0;
    if tokens >= 0.0 then (Bucket(tokens, now), true) else (b, false)
  }

  predicate Sound(l: Limits, b: Bucket) {
    0.0 <= b.tokens <= l.burst as real
  }

  lemma Gain(r: real, x: real)
    requires r > 0.0
    ensures x >= 0.0 ==> r * x >= 0.0
    ensures x == 0.0 ==> r * x == 0.0
  {
  }

  lemma Scale(r: real, x: real, y: real)
    requires r > 0.0 && x <= y
    ensures r * x <= r * y
  {
    assert r * (y - x) >= 0.0;
    assert r * (y - x) == r * y - r * x;
  }

  lemma AddGain(r: real, from: real, mid: real, to: real)
    requires r > 0.0 && from <= mid <= to
    ensures r * (to - from) == r * (mid - from) + r * (to - mid)
    ensures r * (mid - from) >= 0.0 && r * (to - mid) >= 0.0
  {
    Gain(r, mid - from);
    Gain(r, to - mid);
  }

  lemma LevelAt(l: Limits, b: Bucket, now: real, gain: real)
    requires b.last <= now && gain == Gained(l.rate, now - b.last)
    ensures Level(l, b, now) == Min(b.tokens + gain, l.burst as real)
  {
    hide Gained;
  }

  /** What a bucket has earned by `t`, and what it earns from then to `u`. */
  lemma GainSplit(l: Limits, b: Bucket, t: real, u: real) returns (before: real, during: real)
    requires l.Valid() && b.last <= t <= u
    ensures before >= 0.0 && during >= 0.0 && during == l.rate * (u - t)
    ensures Level(l, b, t) == Min(b.tokens + before, l.burst as real)
    ensures Level(l, b, u) == Min(b.tokens + (before + during), l.burst as real)
  {
    hide Level;
    before, during := l.rate * (t - b.last), l.rate * (u - t);
    AddGain(l.rate, b.last, t, u);
    LevelAt(l, b, t, before);
    LevelAt(l, b, u, before + during);
  }

  /** Between two instants a bucket gains at most rate * elapsed tokens, and never loses any. */
  lemma LevelGrowth(l: Limits, b: Bucket, t: real, u: real)
    requires l.Valid() && b.last <= t <= u
    ensures Level(l, b, t) <= Level(l, b, u) <= Level(l, b, t) + l.rate * (u - t)
  {
    hide Level;
    var before, during := GainSplit(l, b, t, u);
  }

  /** A bucket refills at its rate, up to the burst, whenever it is looked at. */
  lemma LevelRefills(l: Limits, b: Bucket, t: real, u: real)
    requires l.Valid() && b.last <= t <= u && Sound(l, b)
    ensures Level(l, b, b.last) == b.tokens
    ensures Level(l, b, u) ==
            if Level(l, b, t) + l.rate * (u - t) <= l.burst as real then Level(l, b, t) + l.rate * (u - t)
            else l.burst as real
  {
    hide Level;
    var before, during := GainSplit(l, b, t, u);
    Gain(l.rate, b.last - b.last);
    LevelAt(l, b, b.last, l.rate * (b.last - b.last));
  }

  /** A request is admitted exactly if a whole token is there, and takes it; a refusal costs nothing. */
  lemma TakeIff(l: Limits, b: Bucket, now: real)
    ensures
      var (after, ok) := Take(l, b, now);
      && (ok <==> Level(l, b, now) >= 1.0)
      && after == if ok then Bucket(Level(l, b, now) - 1.0, now) else b
  {
    hide Level;
  }

  lemma FreshIsFull(l: Limits, now: real)
    requires l.Valid()
    ensures Level(l, Fresh(l), now) == l.burst as real
  {
    Scale(l.rate, 0.0, if now < 0.0 then 0.0 else now);
  }

  lemma TakeKeepsSound(l: Limits, b: Bucket, now: real)
    requires l.Valid() && Sound(l, b)
    ensures Sound(l, Take(l, b, now).0)
    ensures b.last <= now ==> Take(l, b, now).0.last <= now
  {
  }

  /** Only the level at `now` decides an answer and, when granted, the bucket left behind. */
  lemma SameLevelSameTake(l: Limits, a: Bucket, b: Bucket, now: real)
    requires l.Valid() && Level(l, a, now) == Level(l, b, now) >= 1.0
    ensures Take(l, a, now) == Take(l, b, now)
  {
  }

  /** The Retry-After header: whole seconds, at least one (policy.go:192). */
  function RetryAfter(l: Limits): int
    requires l.Valid()
  {
    var seconds := Ceil(1.0 / l.rate);
    if seconds < 1 then 1 else seconds
  }

  function Ceil(x: real): int {
    -((-x).Floor)
  }

  /** A refused client that waits for Retry-After seconds is admitted. */
  lemma RetryAfterSuffices(l: Limits, b: Bucket, now: real)
    requires l.Valid() && Sound(l, b) && b.last <= now
    requires !Take(l, b, now).1
    ensures Take(l, b, now + RetryAfter(l) as real).1
  {
    hide RetryAfter;
    WaitEarnsOne(l);
    var later := now + RetryAfter(l) as real;
    assert later - now == RetryAfter(l) as real;
    Earned(l, b, now, later);
  }

  lemma WaitEarnsOne(l: Limits)
    requires l.Valid()
    ensures RetryAfter(l) >= 1 && l.rate * RetryAfter(l) as real >= 1.0
  {
    var wait, period := RetryAfter(l) as real, 1.0 / l.rate;
    assert l.rate * period == 1.0;
    CeilIsAbove(period);
    Scale(l.rate, period, wait);
  }

  lemma Earned(l: Limits, b: Bucket, now: real, later: real)
    requires l.Valid() && Sound(l, b) && b.last <= now <= later && l.rate * (later - now) >= 1.0
    ensures Level(l, b, later) >= 1.0
  {
    hide Level;
    var before, during := GainSplit(l, b, now, later);
    assert l.burst as real >= 1.0;
  }

  lemma CeilIsAbove(x: real)
    ensures x <= Ceil(x) as real
  {
  }
}
