/**
 The per-client token bucket with lazy pruning (pkg/httpx/ratelimit.go). Times are seconds and
 tokens are reals.
 */
module RateLimiter {
  datatype Bucket = Bucket(tokens: real, lastFill: real)

  datatype Limits = Limits(cap: real, perSec: real)

  const PRUNE_ABOVE := 10000
  const STALE_SECONDS := 900.0

  function LimitsFor(requestsPerMinute: int): Limits {
    Limits(requestsPerMinute as real, if requestsPerMinute > 0 then requestsPerMinute as real / 60.0 else 0.0)
  }

  // ----- one call -----

  /** What the refill brings from time zero to t; between two instants it brings the difference. */
  function Credit(l: Limits, t: real): real {
    l.perSec * t
  }

  lemma CreditOfDifference(l: Limits, now: real, since: real)
    ensures Credit(l, now) - Credit(l, since) == (now - since) * l.perSec
  {}

  function Filled(l: Limits, b: Bucket, now: real): Bucket {
    var tokens := b.tokens + Credit(l, now) - Credit(l, b.lastFill);
    Bucket(if tokens > l.cap then l.cap else tokens, now)
  }

  function Taken(b: Bucket): Bucket {
    if b.tokens < 1.0 then b else Bucket(b.tokens - 1.0, b.lastFill)
  }

  predicate Stale(b: Bucket, now: real) {
    now - b.lastFill > STALE_SECONDS
  }

  function Pruned(m: map<string, Bucket>, now: real): map<string, Bucket> {
    map k | k in m && !Stale(m[k], now) :: m[k]
  }

  /** The table in which the caller's bucket exists; without pruning nothing is ever dropped. */
  function Found(l: Limits, pruning: bool, m: map<string, Bucket>, key: string, now: real): (r: map<string, Bucket>)
    ensures key in r
  {
    if key in m then m
    else if pruning && |m| > PRUNE_ABOVE then Pruned(m, now)[key := Bucket(l.cap, now)]
    else m[key := Bucket(l.cap, now)]
  }

  predicate Allowed(l: Limits, pruning: bool, m: map<string, Bucket>, key: string, now: real) {
    Filled(l, Found(l, pruning, m, key, now)[key], now).tokens >= 1.0
  }

  function After(l: Limits, pruning: bool, m: map<string, Bucket>, key: string, now: real): map<string, Bucket> {
    var found := Found(l, pruning, m, key, now);
    found[key := Taken(Filled(l, found[key], now))]
  }

  class TokenBucket {
    var tokens: real
    var lastFill: real

    constructor (tokens: real, lastFill: real)
      ensures this.tokens == tokens && this.lastFill == lastFill
    {
      this.tokens, this.lastFill := tokens, lastFill;
    }

    function Value(): Bucket
      reads this
    {
      Bucket(tokens, lastFill)
    }

    /** Refill for the time passed, clamp, and take a token if there is one. */
    method Take(cap: real, perSec: real, now: real) returns (ok: bool)
      modifies this
      ensures Value() == Taken(Filled(Limits(cap, perSec), old(Value()), now))
      ensures ok <==> Filled(Limits(cap, perSec), old(Value()), now).tokens >= 1.0
    {
      var elapsed := now - lastFill;
      CreditOfDifference(Limits(cap, perSec), now, lastFill);
      tokens := tokens + elapsed * perSec;
      if tokens > cap { tokens := cap; }
      lastFill := now;
      assert Value() == Filled(Limits(cap, perSec), old(Value()), now);
      if tokens < 1.0 { return false; }
      tokens := tokens - 1.0;
      return true;
    }
  }

  class Limiter {
    var buckets: map<string, TokenBucket>
    const cap: real
    const perSec: real

    ghost predicate Valid()
      reads this
    {
      forall j, k :: j in buckets && k in buckets && j != k ==> buckets[j] != buckets[k]
    }

    ghost function Contents(): map<string, Bucket>
      reads this, buckets.Values
    {
      map k | k in buckets :: buckets[k].Value()
    }

    ghost function Rates(): Limits { Limits(cap, perSec) }

    constructor (requestsPerMinute: int)
      ensures Valid() && Contents() == map[] && Rates() == LimitsFor(requestsPerMinute) && fresh(buckets.Values)
    {
      buckets := map[];
      cap := requestsPerMinute as real;
      perSec := if requestsPerMinute > 0 then requestsPerMinute as real / 60.0 else 0.0;
    }

    /** The caller's bucket, made full if there is none. */
    method BucketFor(key: string, now: real) returns (b: TokenBucket)
      requires Valid()
      modifies this
      ensures Valid() && fresh(buckets.Values - old(buckets.Values))
      ensures Contents() == Found(Rates(), true, old(Contents()), key, now)
      ensures key in buckets && b == buckets[key]
    {
      if key in buckets { return buckets[key]; }
      assert Contents().Keys == buckets.Keys;
      if |buckets| > PRUNE_ABOVE { Prune(now); }
      ghost var kept := Contents();
      b := new TokenBucket(cap, now);
      buckets := buckets[key := b];
      assert Contents() == kept[key := b.Value()];
    }

    method Allow(key: string, now: real) returns (ok: bool)
      requires Valid()
      modifies this, buckets.Values
      ensures Valid() && fresh(buckets.Values - old(buckets.Values))
      ensures ok <==> Allowed(Rates(), true, old(Contents()), key, now)
      ensures Contents() == After(Rates(), true, old(Contents()), key, now)
    {
      var b := BucketFor(key, now);
      ghost var found := Contents();
      assert forall k :: k in buckets && k != key ==> buckets[k] != b;
      ok := b.Take(cap, perSec, now);
      assert Contents() == found[key := b.Value()];
    }

    method Prune(now: real)
      requires Valid()
      modifies this
      ensures Valid() && buckets.Values <= old(buckets.Values)
      ensures Contents() == Pruned(old(Contents()), now)
    {
      var keys := buckets.Keys;
      while exists k :: k in keys
        invariant keys <= buckets.Keys <= old(buckets.Keys)
        invariant forall k :: k in buckets ==> buckets[k] == old(buckets[k])
        invariant forall k :: k in old(buckets) && k !in keys ==>
          (k in buckets <==> !(now - old(buckets[k].lastFill) > STALE_SECONDS))
        decreases keys
      {
        var k :| k in keys;
        if now - buckets[k].lastFill > 900.0 { buckets := buckets - {k}; }
        keys := keys - {k};
      }
    }
  }
}
