/**
 The token-bucket rate limiter: the pure transition that the shared store runs
 on a table row, the in-process class that updates its bucket in place, and
 the grant bounds both obey whatever the clock does.
 */
module TokenBucket {
  import opened Prelude

  datatype Limit = Limit(requestsPerMinute: real, burst: real)
  datatype Bucket = Bucket(tokens: real, lastRefill: real)

  /** A denial's `retryAfterSeconds`; a zero rate makes the division infinite. */
  datatype Wait = Seconds(n: int) | Forever
  datatype Verdict = Allowed | Denied(retryAfter: Wait)

  function RatePerMs(limit: Limit): real { limit.requestsPerMinute / 60000.0 }

  /** Tokens that accrue over `elapsed` milliseconds. */
  function Refill(limit: Limit, elapsed: real): real { elapsed * RatePerMs(limit) }

  /** Tokens in the bucket at `now`, before the request is served. */
  function Refilled(bucket: Option<Bucket>, limit: Limit, now: real): real {
    var current := if bucket.Some? then bucket.value else Bucket(limit.burst, now);
    MinReal(limit.burst, current.tokens + Refill(limit, now - current.lastRefill))
  }

  function RetryAfter(tokens: real, limit: Limit): Wait {
    if limit.requestsPerMinute == 0.0 then Forever
    else Seconds(MaxInt(1, Ceil((1.0 - tokens) / (limit.requestsPerMinute / 60.0))))
  }

  /** The pure transition: the next bucket and the answer. */
  function TakeToken(bucket: Option<Bucket>, limit: Limit, now: real): (Bucket, Verdict) {
    var tokens := Refilled(bucket, limit, now);
    if tokens < 1.0 then (Bucket(tokens, now), Denied(RetryAfter(tokens, limit)))
    else (Bucket(tokens - 1.0, now), Allowed)
  }

  // ---------------------------------------------------------------------
  // Runs against one bucket
  // ---------------------------------------------------------------------

  /** How many of the requests made at `times`, in this order, are granted. */
  function Grants(bucket: Option<Bucket>, limit: Limit, times: seq<real>): nat
    decreases |times|
  {
    if times == [] then 0
    else
      var (next, verdict) := TakeToken(bucket, limit, times[0]);
      (if verdict.Allowed? then 1 else 0) + Grants(Some(next), limit, times[1..])
  }

  function Latest(times: seq<real>): (m: real)
    requires times != []
    ensures m in times && forall t | t in times :: t <= m
    decreases |times|
  {
    assert times == [times[0]] + times[1..];
    if |times| == 1 then times[0] else MaxReal(times[0], Latest(times[1..]))
  }

  lemma {:induction false} GrantsFrom(bucket: Bucket, limit: Limit, times: seq<real>, horizon: real)
    requires limit.requestsPerMinute >= 0.0
    requires forall t | t in times :: t <= horizon
    ensures
      var g := Grants(Some(bucket), limit, times);
      g == 0 || g as real <= bucket.tokens + Refill(limit, horizon - bucket.lastRefill)
    decreases |times|
  {
    if times != [] {
      var now := times[0];
      var (next, verdict) := TakeToken(Some(bucket), limit, now);
      assert now in times && forall t | t in times[1..] :: t in times;
      GrantsFrom(next, limit, times[1..], horizon);
      RefillSplits(limit, horizon - now, now - bucket.lastRefill);
      RefillNonNegative(limit, horizon - now);
    }
  }

  lemma RefillSplits(limit: Limit, a: real, b: real)
    ensures Refill(limit, a + b) == Refill(limit, a) + Refill(limit, b)
  {}

  lemma RefillNonNegative(limit: Limit, elapsed: real)
    requires limit.requestsPerMinute >= 0.0 && elapsed >= 0.0
    ensures Refill(limit, elapsed) >= 0.0
  {}

  /**
   Any contiguous stretch of requests, starting from any bucket whatever and
   with the clock free to run backwards, is granted at most the burst plus the
   rate times the time from its first request to its latest one.
   */
  lemma GrantBound(bucket: Option<Bucket>, limit: Limit, times: seq<real>)
    requires limit.requestsPerMinute >= 0.0
    requires times != []
    ensures
      var g := Grants(bucket, limit, times);
      g == 0 || g as real <= limit.burst + Refill(limit, Latest(times) - times[0])
  {
    var (next, verdict) := TakeToken(bucket, limit, times[0]);
    assert times[0] in times && forall t | t in times[1..] :: t in times;
    GrantsFrom(next, limit, times[1..], Latest(times));
    RefillNonNegative(limit, Latest(times) - times[0]);
  }

  /**
   The denial's advice is exact: with no request in between, waiting the
   returned seconds is granted precisely when the bucket can ever hold a whole
   token, and one second less is still denied unless the answer was the
   one-second minimum.
   */
  lemma RetryAfterExact(bucket: Option<Bucket>, limit: Limit, now: real)
    requires limit.requestsPerMinute > 0.0
    requires TakeToken(bucket, limit, now).1.Denied?
    ensures
      var (next, verdict) := TakeToken(bucket, limit, now);
      && verdict.retryAfter.Seconds?
      && var n := verdict.retryAfter.n;
      && n >= 1
      && (TakeToken(Some(next), limit, now + 1000.0 * n as real).1.Allowed? <==> limit.burst >= 1.0)
      && (n > 1 ==> TakeToken(Some(next), limit, now + 1000.0 * (n - 1) as real).1.Denied?)
  {
    var (next, verdict) := TakeToken(bucket, limit, now);
    var n := verdict.retryAfter.n;
    var perSecond := limit.requestsPerMinute / 60.0;
    var deficit := 1.0 - next.tokens;
    DivisionBound(deficit, perSecond, n);
    RefillOver(limit, now, n);
    RefillOver(limit, now, n - 1);
    if n > 1 {
      assert n == Ceil(deficit / perSecond);
      DivisionBound'(deficit, perSecond, n);
    }
  }

  lemma RefillOver(limit: Limit, now: real, n: int)
    ensures Refill(limit, now + 1000.0 * n as real - now) == n as real * (limit.requestsPerMinute / 60.0)
  {}

  lemma DivisionBound(deficit: real, perSecond: real, n: int)
    requires perSecond > 0.0
    requires n >= Ceil(deficit / perSecond)
    ensures n as real * perSecond >= deficit
  {}

  lemma DivisionBound'(deficit: real, perSecond: real, n: int)
    requires perSecond > 0.0
    requires n == Ceil(deficit / perSecond)
    ensures (n - 1) as real * perSecond < deficit
  {
    var q := deficit / perSecond;
    assert q * perSecond == deficit;
    assert (q - (n - 1) as real) * perSecond > 0.0;
  }

  // ---------------------------------------------------------------------
  // The in-process limiter: many keys, buckets updated in place
  // ---------------------------------------------------------------------

  function Lookup(buckets: map<string, Bucket>, key: string): Option<Bucket> {
    if key in buckets then Some(buckets[key]) else None
  }

  class TokenBucketRateLimiter {
    const config: Limit
    var buckets: map<string, Bucket>

    constructor (config: Limit)
      ensures this.config == config && buckets == map[]
    {
      this.config := config;
      buckets := map[];
    }

    method CanExecute(key: string, now: real) returns (result: Verdict)
      modifies `buckets
      ensures buckets == old(buckets)[key := TakeToken(Lookup(old(buckets), key), config, now).0]
      ensures result == TakeToken(Lookup(old(buckets), key), config, now).1
    {
      result := CanExecuteWithLimit(key, config, now);
    }

    method CanExecuteWithLimit(key: string, limit: Limit, now: real) returns (result: Verdict)
      modifies `buckets
      ensures buckets == old(buckets)[key := TakeToken(Lookup(old(buckets), key), limit, now).0]
      ensures result == TakeToken(Lookup(old(buckets), key), limit, now).1
    {
      var capacity := limit.burst;
      var bucket := Bucket(capacity, now);
      if key in buckets {
        bucket := buckets[key];
      }
      var elapsedMs := now - bucket.lastRefill;
      var tokensToAdd := Refill(limit, elapsedMs);
      bucket := Bucket(MinReal(capacity, bucket.tokens + tokensToAdd), now);
      if bucket.tokens < 1.0 {
        buckets := buckets[key := bucket];
        result := Denied(RetryAfter(bucket.tokens, limit));
      } else {
        bucket := bucket.(tokens := bucket.tokens - 1.0);
        buckets := buckets[key := bucket];
        result := Allowed;
      }
    }
  }

  datatype Request = Request(key: string, now: real)

  /** Grants to `key` when the limiter serves `requests`, each key under its own fixed limit. */
  function GrantsTo(buckets: map<string, Bucket>, limits: string -> Limit, requests: seq<Request>, key: string): nat
    decreases |requests|
  {
    if requests == [] then 0
    else
      var r := requests[0];
      var (next, verdict) := TakeToken(Lookup(buckets, r.key), limits(r.key), r.now);
      (if r.key == key && verdict.Allowed? then 1 else 0)
      + GrantsTo(buckets[r.key := next], limits, requests[1..], key)
  }

  function TimesOf(requests: seq<Request>, key: string): seq<real>
    decreases |requests|
  {
    if requests == [] then []
    else (if requests[0].key == key then [requests[0].now] else []) + TimesOf(requests[1..], key)
  }

  lemma {:induction false} KeysAreIndependent(
      buckets: map<string, Bucket>, limits: string -> Limit, requests: seq<Request>, key: string)
    ensures GrantsTo(buckets, limits, requests, key)
         == Grants(Lookup(buckets, key), limits(key), TimesOf(requests, key))
    decreases |requests|
  {
    if requests != [] {
      var r := requests[0];
      var (next, verdict) := TakeToken(Lookup(buckets, r.key), limits(r.key), r.now);
      KeysAreIndependent(buckets[r.key := next], limits, requests[1..], key);
      if r.key == key {
        assert TimesOf(requests, key)[1..] == TimesOf(requests[1..], key);
      } else {
        assert TimesOf(requests, key) == TimesOf(requests[1..], key);
      }
    }
  }

  /** The bound, for one key, under arbitrary interleaved traffic on every other key. */
  lemma KeyGrantBound(buckets: map<string, Bucket>, limits: string -> Limit, requests: seq<Request>, key: string)
    requires limits(key).requestsPerMinute >= 0.0
    ensures
      var g := GrantsTo(buckets, limits, requests, key);
      var times := TimesOf(requests, key);
      g == 0 || (times != [] && g as real <= limits(key).burst + Refill(limits(key), Latest(times) - times[0]))
  {
    KeysAreIndependent(buckets, limits, requests, key);
    if TimesOf(requests, key) != [] {
      GrantBound(Lookup(buckets, key), limits(key), TimesOf(requests, key));
    }
  }
}
