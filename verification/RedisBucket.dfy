/** The token bucket that N gateway replicas share through Redis (internal/limiter/redis.go):
    one Lua script per admission, atomic, on Redis' own clock, with an expiry on the jar.
    Arithmetic is exact: the six decimals the script stores are not modelled.  */
module RedisBucket {
  import opened TokenBucket

  datatype Jar = Jar(tokens: real, ts: int)

  const IDLE_TTL: int := 600_000

  /** The expiry a replica asks for: ten minutes, or a whole refill if that is longer.  The
      conversion to a Duration drops the fraction of a millisecond. */
  function Ttl(capacity: real, refill: real): int {
    if refill > 0.0 && (capacity / refill).Floor > IDLE_TTL then (capacity / refill).Floor else IDLE_TTL
  }

  /** The script's arithmetic: refill for the time since, if any, then try to pay. */
  function Draw(jar: Jar, now: int, a: Args): (Jar, bool) {
    var elapsed := now - jar.ts;
    var tokens := if elapsed > 0 then Min(a.capacity, jar.tokens + Accrued(elapsed, a.refill)) else jar.tokens;
    var allowed := tokens >= a.cost;
    (Jar(if allowed then tokens - a.cost else tokens, now), allowed)
  }

  function Stored(keys: map<string, Jar>, now: int, a: Args): Jar {
    if a.key in keys then keys[a.key] else Jar(a.capacity, now)
  }

  /** The script on the whole key space. */
  function Script(keys: map<string, Jar>, now: int, a: Args): (map<string, Jar>, bool, int) {
    var (jar, allowed) := Draw(Stored(keys, now, a), now, a);
    (keys[a.key := jar], allowed, jar.tokens.Floor)
  }

  /** What the replica makes of the script's answer. */
  function Answer(allowed: bool, remaining: int): Decision {
    Decision(allowed, if remaining < 0 then 0 else remaining)
  }

  /** Redis may drop a key from the moment its expiry has elapsed. */
  predicate Expired(jar: Jar, now: int, ttl: int) {
    now - jar.ts >= ttl
  }

  /** The Redis server, as the script and the expiry change it. */
  class Redis {
    var keys: map<string, Jar>
    var ttls: map<string, int>

    constructor ()
      ensures keys == map[] && ttls == map[]
    {
      keys, ttls := map[], map[];
    }

    /** One EVAL: read, refill, spend, write, and push the expiry out. */
    method Eval(now: int, a: Args, ttl: int) returns (allowed: bool, remaining: int)
      modifies this
      ensures (keys, allowed, remaining) == Script(old(keys), now, a)
      ensures ttls == old(ttls)[a.key := ttl]
    {
      var tokens, ts := a.capacity, now;
      if a.key in keys {
        tokens, ts := keys[a.key].tokens, keys[a.key].ts;
      }
      var elapsed := now - ts;
      if elapsed > 0 {
        tokens := Min(a.capacity, tokens + Accrued(elapsed, a.refill));
      }
      allowed := false;
      if tokens >= a.cost {
        tokens := tokens - a.cost;
        allowed := true;
      }
      keys := keys[a.key := Jar(tokens, now)];
      ttls := ttls[a.key := ttl];
      remaining := tokens.Floor;
    }

    /** A key whose expiry has elapsed goes away; nothing else does. */
    method Expire(key: string, now: int)
      modifies this
      ensures keys == if key in old(keys) && key in old(ttls) && Expired(old(keys)[key], now, old(ttls)[key])
                      then old(keys) - {key} else old(keys)
      ensures ttls == old(ttls)
    {
      if key in keys && key in ttls && Expired(keys[key], now, ttls[key]) {
        keys := keys - {key};
      }
    }
  }

  /** CheckBurst, as any replica runs it. */
  method CheckBurst(redis: Redis, now: int, a: Args) returns (d: Decision)
    modifies redis
    ensures redis.keys == Script(old(redis.keys), now, a).0
    ensures d == Answer(Script(old(redis.keys), now, a).1, Script(old(redis.keys), now, a).2)
    ensures redis.ttls == old(redis.ttls)[a.key := Ttl(a.capacity, a.refill)]
  {
    var ttl := IDLE_TTL;
    if a.refill > 0.0 {
      var full := (a.capacity / a.refill).Floor;
      if full > ttl {
        ttl := full;
      }
    }
    var allowed, remaining := redis.Eval(now, a, ttl);
    d := Decision(allowed, if remaining < 0 then 0 else remaining);
  }
}
