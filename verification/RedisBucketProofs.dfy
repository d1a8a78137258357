/** N replicas on one Redis are one local bucket, up to what an early expiry hands back. */
module RedisBucketProofs {
  import opened TokenBucket
  import opened TokenBucketProofs
  import opened RedisBucket

  /** A call by one of the replicas, or Redis expiring a key. */
  datatype Event =
    | Call(replica: nat, now: int, args: Args)
    | Expire(key: string, now: int)

  /** Plans whose expiry can never be noticed: a whole number of milliseconds to refill, or
      no more than the idle expiry. */
  predicate Covered(capacity: real, refill: real)
    requires refill > 0.0
  {
    capacity / refill == (capacity / refill).Floor as real || capacity / refill <= 600_000.0
  }

  ghost predicate OnRedisPlan(plan: Plan, events: seq<Event>) {
    forall e | e in events && e.Call? ::
      && e.args.capacity == plan.capacity(e.args.key) >= 0.0
      && e.args.refill == plan.refill(e.args.key) > 0.0
      && e.args.cost > 0.0
  }

  predicate Chronological(events: seq<Event>, clock: int) {
    events == [] || (clock <= events[0].now && Chronological(events[1..], events[0].now))
  }

  /** What the replicas answer, whichever of them asked. */
  function RunRedis(plan: Plan, keys: map<string, Jar>, events: seq<Event>): seq<Decision>
    decreases |events|
  {
    if events == [] then []
    else
      match events[0]
      case Call(_, now, a) =>
        var (keys', allowed, remaining) := Script(keys, now, a);
        [Answer(allowed, remaining)] + RunRedis(plan, keys', events[1..])
      case Expire(k, now) =>
        RunRedis(plan, AfterExpiry(plan, keys, k, now), events[1..])
  }

  function AfterExpiry(plan: Plan, keys: map<string, Jar>, k: string, now: int): map<string, Jar> {
    if k in keys && Expired(keys[k], now, Ttl(plan.capacity(k), plan.refill(k))) then keys - {k} else keys
  }

  /** The reference: one local bucket serving the merged trace. */
  function RunLocal(jars: map<string, Bucket>, events: seq<Event>): seq<Decision>
    decreases |events|
  {
    if events == [] then []
    else
      match events[0]
      case Call(_, now, a) =>
        var (jars', d) := Check(jars, now, a);
        [d] + RunLocal(jars', events[1..])
      case Expire(_, _) => RunLocal(jars, events[1..])
  }

  // ---- Refinement -------------------------------------------------------------------

  ghost predicate Agree(plan: Plan, keys: map<string, Jar>, jars: map<string, Bucket>, clock: int, k: string) {
    && (k in keys ==> k in jars && jars[k].tokens == keys[k].tokens && jars[k].lastRefill == keys[k].ts)
    && (k in jars ==>
          && 0.0 <= jars[k].tokens <= plan.capacity(k) && plan.refill(k) > 0.0 && jars[k].lastRefill <= clock
          && (k !in keys ==> jars[k].tokens + Accrued(clock - jars[k].lastRefill, plan.refill(k)) >= plan.capacity(k)))
  }

  ghost predicate AllAgree(plan: Plan, keys: map<string, Jar>, jars: map<string, Bucket>, clock: int) {
    forall k :: Agree(plan, keys, jars, clock, k)
  }

  /** A covered jar has refilled completely by the time it may expire. */
  lemma ExpiredIsFull(capacity: real, refill: real, tokens: real, elapsed: int)
    requires refill > 0.0 && capacity >= 0.0 && tokens >= 0.0 && Covered(capacity, refill)
    requires elapsed >= Ttl(capacity, refill)
    ensures tokens + Accrued(elapsed, refill) >= capacity
  {
    var full := capacity / refill;
    assert elapsed as real >= full;
    Product(refill, full, elapsed as real);
    assert refill * full == capacity;
  }

  /** One script call and one local check, on jars that agree. */
  lemma DrawIsServe(jar: Jar, b: Bucket, now: int, a: Args)
    requires b.tokens == jar.tokens && b.lastRefill == jar.ts <= now
    requires 0.0 <= jar.tokens <= a.capacity && a.refill > 0.0 && a.cost > 0.0
    ensures
      var (jar', allowed) := Draw(jar, now, a);
      var (b', d) := Serve(b, now, a);
      && Answer(allowed, jar'.tokens.Floor) == d
      && jar' == Jar(b'.tokens, b'.lastRefill)
      && 0.0 <= b'.tokens <= a.capacity
  {
    Product(a.refill, 0.0, (now - jar.ts) as real);
    assert now == jar.ts ==> Accrued(now - jar.ts, a.refill) == 0.0;
  }

  lemma CallAgrees(plan: Plan, keys: map<string, Jar>, jars: map<string, Bucket>, clock: int, now: int, a: Args)
    requires AllAgree(plan, keys, jars, clock) && clock <= now && a.cost > 0.0
    requires a.capacity == plan.capacity(a.key) >= 0.0 && a.refill == plan.refill(a.key) > 0.0
    ensures Answer(Script(keys, now, a).1, Script(keys, now, a).2) == Check(jars, now, a).1
    ensures AllAgree(plan, Script(keys, now, a).0, Check(jars, now, a).0, now)
  {
    assert Agree(plan, keys, jars, clock, a.key);
    var jar := Stored(keys, now, a);
    var same := Bucket(jar.tokens, jar.ts, a.capacity, a.refill);
    DrawIsServe(jar, same, now, a);
    assert Serve(JarFor(jars, now, a), now, a) == Serve(same, now, a) by {
      if a.key in jars && a.key !in keys {
        Accrues(clock, now, jars[a.key].lastRefill, a.refill);
        FullIsFresh(jars[a.key], now, a);
      }
    }
    forall k
      ensures Agree(plan, Script(keys, now, a).0, Check(jars, now, a).0, now, k)
    {
      assert Agree(plan, keys, jars, clock, k);
      if k in jars && k != a.key {
        Accrues(clock, now, jars[k].lastRefill, plan.refill(k));
      }
    }
  }

  lemma ExpiryAgrees(plan: Plan, keys: map<string, Jar>, jars: map<string, Bucket>, clock: int, k: string, now: int)
    requires AllAgree(plan, keys, jars, clock) && clock <= now
    requires plan.refill(k) > 0.0 ==> Covered(plan.capacity(k), plan.refill(k))
    ensures AllAgree(plan, AfterExpiry(plan, keys, k, now), jars, now)
  {
    forall x
      ensures Agree(plan, AfterExpiry(plan, keys, k, now), jars, now, x)
    {
      assert Agree(plan, keys, jars, clock, x);
      if x in jars {
        Accrues(clock, now, jars[x].lastRefill, plan.refill(x));
        if x == k && k in keys && Expired(keys[k], now, Ttl(plan.capacity(k), plan.refill(k))) {
          ExpiredIsFull(plan.capacity(k), plan.refill(k), jars[k].tokens, now - jars[k].lastRefill);
        }
      }
    }
  }

  lemma {:induction false} AgreeingRuns(plan: Plan, keys: map<string, Jar>, jars: map<string, Bucket>, clock: int,
                                        events: seq<Event>)
    requires AllAgree(plan, keys, jars, clock)
    requires Chronological(events, clock) && OnRedisPlan(plan, events)
    requires forall k | plan.refill(k) > 0.0 :: Covered(plan.capacity(k), plan.refill(k))
    ensures RunRedis(plan, keys, events) == RunLocal(jars, events)
    decreases |events|
  {
    if events != [] {
      assert events[0] in events;
      match events[0]
      case Call(_, now, a) =>
        CallAgrees(plan, keys, jars, clock, now, a);
        AgreeingRuns(plan, Script(keys, now, a).0, Check(jars, now, a).0, now, events[1..]);
      case Expire(k, now) =>
        ExpiryAgrees(plan, keys, jars, clock, k, now);
        AgreeingRuns(plan, AfterExpiry(plan, keys, k, now), jars, now, events[1..]);
    }
  }

  /** However the replicas' calls and the expiries interleave, they answer as one local
      bucket would on the merged trace, as long as every plan is covered. */
  lemma RedisRefinesLocal(plan: Plan, clock: int, events: seq<Event>)
    requires Chronological(events, clock) && OnRedisPlan(plan, events)
    requires forall k | plan.refill(k) > 0.0 :: Covered(plan.capacity(k), plan.refill(k))
    ensures RunRedis(plan, map[], events) == RunLocal(map[], events)
  {
    AgreeingRuns(plan, map[], map[], clock, events);
  }

  // ---- What an early expiry hands back ----------------------------------------------

  /** The tokens a jar gains by being forgotten instead of refilled. */
  function Refund(jar: Jar, now: int, capacity: real, refill: real): real {
    capacity - Min(capacity, jar.tokens + Accrued(now - jar.ts, refill))
  }

  /** Waiting `elapsed` ms instead of a full refill leaves the jar short by the difference. */
  lemma Shortfall(capacity: real, refill: real, elapsed: int) returns (gap: real)
    requires refill > 0.0
    ensures gap == capacity / refill - elapsed as real
    ensures capacity - Accrued(elapsed, refill) == refill * gap
  {
    gap := capacity / refill - elapsed as real;
    assert refill * (capacity / refill) == capacity;
  }

  /** Whatever the plan, an expiry hands back less than one millisecond's refill. */
  lemma RefundBelowOneMs(jar: Jar, now: int, capacity: real, refill: real)
    requires refill > 0.0 && capacity >= 0.0 && jar.tokens >= 0.0
    requires Expired(jar, now, Ttl(capacity, refill))
    ensures 0.0 <= Refund(jar, now, capacity, refill) < refill
  {
    var elapsed := now - jar.ts;
    var gap := Shortfall(capacity, refill, elapsed);
    assert capacity - Accrued(elapsed, refill) < refill;
  }

  /** And only at the very millisecond it falls due: one later the jar is full on any plan. */
  lemma LateExpiryRefundsNothing(jar: Jar, now: int, capacity: real, refill: real)
    requires refill > 0.0 && capacity >= 0.0 && jar.tokens >= 0.0
    requires Expired(jar, now, Ttl(capacity, refill) + 1)
    ensures Refund(jar, now, capacity, refill) == 0.0
  {
    var gap := Shortfall(capacity, refill, now - jar.ts);
    assert (capacity / refill).Floor < now - jar.ts;
    assert gap < 0.0 && refill * gap < 0.0;
  }

  /** A plan that leaves a gap is told apart from the local bucket by three events: drain the
      jar, let it expire at the first opportunity, and ask for all of it again. */
  lemma GapShows(capacity: real, refill: real, k: string) returns (events: seq<Event>)
    requires refill > 0.0 && capacity > 0.0 && !Covered(capacity, refill)
    ensures Chronological(events, 0) && OnRedisPlan(Uniform(capacity, refill), events)
    ensures RunRedis(Uniform(capacity, refill), map[], events) != RunLocal(map[], events)
  {
    var plan, a, full := Uniform(capacity, refill), Args(k, capacity, refill, capacity), (capacity / refill).Floor;
    var last := [Call(0, full, a)];
    var rest := [Expire(k, full)] + last;
    var drained, empty := map[k := Jar(0.0, 0)], map[k := Bucket(0.0, 0, capacity, refill)];
    assert Accrued(0, refill) == 0.0;
    assert Draw(Jar(capacity, 0), 0, a) == (Jar(0.0, 0), true);
    assert Script(map[], 0, a).0 == drained && Check(map[], 0, a).0 == empty;
    assert AfterExpiry(plan, drained, k, full) == map[];
    LastCall(plan, full, a, empty);
    assert last[1..] == [] && rest[1..] == last && Chronological(last, full) && Chronological(rest, 0);
    events := [Call(0, 0, a)] + rest;
    assert events[1..] == rest;
    assert RunRedis(plan, map[], events)[1..] == RunRedis(plan, map[], last);
    assert RunLocal(map[], events)[1..] == RunLocal(empty, last);
  }

  lemma LastCall(plan: Plan, now: int, a: Args, empty: map<string, Bucket>)
    requires a.cost == a.capacity > 0.0 && a.refill > 0.0 && 0 <= now && Accrued(now, a.refill) < a.capacity
    requires empty == map[a.key := Bucket(0.0, 0, a.capacity, a.refill)]
    ensures RunRedis(plan, map[], [Call(0, now, a)])[0].allowed
    ensures !RunLocal(empty, [Call(0, now, a)])[0].allowed
  {
    assert Stored(map[], now, a) == Jar(a.capacity, now);
    assert Draw(Jar(a.capacity, now), now, a).1;
  }

  /** The same plan for every key. */
  function Uniform(capacity: real, refill: real): Plan {
    Plan(_ => capacity, _ => refill)
  }

  /** The exact condition: Redis answers every trace as the local bucket does iff the plan's
      refill time is a whole number of milliseconds or within the idle expiry. */
  lemma RedisRefinesLocalIff(capacity: real, refill: real)
    requires refill > 0.0 && capacity > 0.0
    ensures
      (forall events | Chronological(events, 0) && OnRedisPlan(Uniform(capacity, refill), events) ::
         RunRedis(Uniform(capacity, refill), map[], events) == RunLocal(map[], events))
      <==> Covered(capacity, refill)
  {
    if Covered(capacity, refill) {
      forall events | Chronological(events, 0) && OnRedisPlan(Uniform(capacity, refill), events)
        ensures RunRedis(Uniform(capacity, refill), map[], events) == RunLocal(map[], events)
      {
        RedisRefinesLocal(Uniform(capacity, refill), 0, events);
      }
    } else {
      var events := GapShows(capacity, refill, "");
    }
  }

  // ---- What the replicas can spend together -----------------------------------------

  /** What was let through for one key. */
  function SpentBy(plan: Plan, keys: map<string, Jar>, events: seq<Event>, key: string): real
    decreases |events|
  {
    if events == [] then 0.0
    else
      match events[0]
      case Call(_, now, a) =>
        var (keys', allowed, _) := Script(keys, now, a);
        (if allowed && a.key == key then a.cost else 0.0) + SpentBy(plan, keys', events[1..], key)
      case Expire(k, now) => SpentBy(plan, AfterExpiry(plan, keys, k, now), events[1..], key)
  }

  /** How many times the key's jar really expired. */
  function Expiries(plan: Plan, keys: map<string, Jar>, events: seq<Event>, key: string): nat
    decreases |events|
  {
    if events == [] then 0
    else
      match events[0]
      case Call(_, now, a) => Expiries(plan, Script(keys, now, a).0, events[1..], key)
      case Expire(k, now) =>
        var keys' := AfterExpiry(plan, keys, k, now);
        (if key in keys && key !in keys' then 1 else 0) + Expiries(plan, keys', events[1..], key)
  }

  /** What the key can still pay for until t2, an absent jar counting as full. */
  function Funds(plan: Plan, keys: map<string, Jar>, key: string, clock: int, t2: int): real {
    if key in keys then keys[key].tokens + Accrued(t2 - keys[key].ts, plan.refill(key))
    else plan.capacity(key) + Accrued(t2 - clock, plan.refill(key))
  }

  ghost predicate GoodJars(plan: Plan, keys: map<string, Jar>, clock: int) {
    forall k | k in keys :: 0.0 <= keys[k].tokens && keys[k].ts <= clock
  }

  lemma AccruedSplit(rate: real, a: int, b: int)
    ensures Accrued(a + b, rate) == Accrued(a, rate) + Accrued(b, rate)
  {
  }

  /** A call pays out of what the jar can still pay for. */
  lemma DrawFunds(jar: Jar, now: int, a: Args, t2: int)
    requires 0.0 <= jar.tokens && jar.ts <= now <= t2 && a.capacity >= 0.0 && a.refill > 0.0 && a.cost > 0.0
    ensures
      var (jar', allowed) := Draw(jar, now, a);
      && 0.0 <= jar'.tokens && jar'.ts == now
      && (if allowed then a.cost else 0.0) + jar'.tokens + Accrued(t2 - now, a.refill)
         <= jar.tokens + Accrued(t2 - jar.ts, a.refill)
  {
    Product(a.refill, 0.0, (now - jar.ts) as real);
    AccruedSplit(a.refill, now - jar.ts, t2 - now);
  }

  lemma CallFunds(plan: Plan, keys: map<string, Jar>, clock: int, now: int, a: Args, key: string, t2: int)
    requires GoodJars(plan, keys, clock) && clock <= now <= t2
    requires a.capacity == plan.capacity(a.key) >= 0.0 && a.refill == plan.refill(a.key) > 0.0 && a.cost > 0.0
    requires plan.refill(key) > 0.0
    ensures
      var (keys', allowed, _) := Script(keys, now, a);
      (if allowed && a.key == key then a.cost else 0.0) + Funds(plan, keys', key, now, t2)
      <= Funds(plan, keys, key, clock, t2)
  {
    AccruedSplit(plan.refill(key), now - clock, t2 - now);
    if a.key == key {
      var jar := Stored(keys, now, a);
      DrawFunds(jar, now, a, t2);
      assert Script(keys, now, a).0[key] == Draw(jar, now, a).0;
    } else {
      assert key in keys ==> Script(keys, now, a).0[key] == keys[key];
    }
  }

  lemma ExpiryFunds(plan: Plan, keys: map<string, Jar>, clock: int, k: string, now: int, key: string, t2: int)
    requires GoodJars(plan, keys, clock) && clock <= now <= t2
    requires plan.refill(key) > 0.0 && plan.capacity(key) >= 0.0
    ensures
      var keys' := AfterExpiry(plan, keys, k, now);
      && GoodJars(plan, keys', now)
      && Funds(plan, keys', key, now, t2)
         <= Funds(plan, keys, key, clock, t2) + if key in keys && key !in keys' then plan.refill(key) else 0.0
  {
    var rate := plan.refill(key);
    Product(rate, 0.0, (now - clock) as real);
    AccruedSplit(rate, now - clock, t2 - now);
    if key in keys && key !in AfterExpiry(plan, keys, k, now) {
      var jar := keys[key];
      RefundBelowOneMs(jar, now, plan.capacity(key), rate);
      AccruedSplit(rate, now - jar.ts, t2 - now);
    }
  }

  /** All replicas together let a key through for at most a jar, the refill of the interval,
      and one millisecond's refill for every expiry, covered plan or not. */
  lemma {:induction false} SharedBound(plan: Plan, keys: map<string, Jar>, clock: int, events: seq<Event>, key: string,
                                       t2: int)
    requires GoodJars(plan, keys, clock) && clock <= t2
    requires Chronological(events, clock) && OnRedisPlan(plan, events)
    requires forall e | e in events :: e.now <= t2
    requires plan.refill(key) > 0.0 && plan.capacity(key) >= 0.0
    ensures SpentBy(plan, keys, events, key)
            <= Funds(plan, keys, key, clock, t2) + Accrued(Expiries(plan, keys, events, key), plan.refill(key))
    decreases |events|
  {
    if events == [] {
    } else {
      assert events[0] in events;
      match events[0]
      case Call(_, now, a) =>
        CallFunds(plan, keys, clock, now, a, key, t2);
        SharedBound(plan, Script(keys, now, a).0, now, events[1..], key, t2);
      case Expire(k, now) =>
        var keys' := AfterExpiry(plan, keys, k, now);
        ExpiryFunds(plan, keys, clock, k, now, key, t2);
        SharedBound(plan, keys', now, events[1..], key, t2);
        AccruedSplit(plan.refill(key), 1, Expiries(plan, keys', events[1..], key));
        assert Accrued(1, plan.refill(key)) == plan.refill(key);
    }
  }
}
