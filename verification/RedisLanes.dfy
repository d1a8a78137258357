module RedisLanes {
  // The shared bucket while plans and lanes change: each call sets the expiry by its own plan, and an
  // expiry can then hand back more than a millisecond's refill.

  import opened TokenBucket
  import opened TokenBucketProofs
  import opened RedisBucket
  import opened RedisBucketProofs
  import JanitorBound

  /** A jar, and the expiry its last call asked for. */
  datatype Held = Held(jar: Jar, ttl: int)

  function JarOf(keys: map<string, Held>, now: int, a: Args): Jar {
    if a.key in keys then keys[a.key].jar else Jar(a.capacity, now)
  }

  function Called(keys: map<string, Held>, now: int, a: Args): (map<string, Held>, bool) {
    var (jar, allowed) := Draw(JarOf(keys, now, a), now, a);
    (keys[a.key := Held(jar, Ttl(a.capacity, a.refill))], allowed)
  }

  function Lapsed(keys: map<string, Held>, k: string, now: int): map<string, Held> {
    if k in keys && Expired(keys[k].jar, now, keys[k].ttl) then keys - {k} else keys
  }

  // ---- The server behind it ---------------------------------------------------------

  /** These keys, under these expiries; an expiry may outlast its key. */
  ghost predicate Mirrors(redis: Redis, keys: map<string, Held>)
    reads redis
  {
    && redis.keys.Keys == keys.Keys
    && forall k | k in keys :: redis.keys[k] == keys[k].jar && k in redis.ttls && redis.ttls[k] == keys[k].ttl
  }

  /** A replica's call on the server. */
  method Call(redis: Redis, ghost keys: map<string, Held>, now: int, a: Args) returns (d: Decision)
    requires Mirrors(redis, keys)
    modifies redis
    ensures Mirrors(redis, Called(keys, now, a).0) && d.allowed == Called(keys, now, a).1
  {
    assert JarOf(keys, now, a) == Stored(redis.keys, now, a);
    d := CheckBurst(redis, now, a);
  }

  /** The server dropping a key. */
  method Lapse(redis: Redis, ghost keys: map<string, Held>, k: string, now: int)
    requires Mirrors(redis, keys)
    modifies redis
    ensures Mirrors(redis, Lapsed(keys, k, now))
  {
    redis.Expire(k, now);
  }

  // ---- The bound --------------------------------------------------------------------

  function SpentOn(keys: map<string, Held>, events: seq<Event>, key: string): real
    decreases |events|
  {
    if events == [] then 0.0
    else
      match events[0]
      case Call(_, now, a) =>
        var (keys', allowed) := Called(keys, now, a);
        (if allowed && a.key == key then a.cost else 0.0) + SpentOn(keys', events[1..], key)
      case Expire(k, now) => SpentOn(Lapsed(keys, k, now), events[1..], key)
  }

  /** How many times the key's jar really lapsed. */
  function Lapses(keys: map<string, Held>, events: seq<Event>, key: string): nat
    decreases |events|
  {
    if events == [] then 0
    else
      match events[0]
      case Call(_, now, a) => Lapses(Called(keys, now, a).0, events[1..], key)
      case Expire(k, now) =>
        var keys' := Lapsed(keys, k, now);
        (if key in keys && key !in keys' then 1 else 0) + Lapses(keys', events[1..], key)
  }

  /** Plans and lanes may change with every call, below these ceilings. */
  ghost predicate Under(events: seq<Event>, capacity: real, rate: real, t2: int) {
    forall e | e in events :: e.now <= t2
      && (e.Call? ==> 0.0 <= e.args.capacity <= capacity && 0.0 <= e.args.refill <= rate && e.args.cost > 0.0)
  }

  ghost predicate GoodHeld(keys: map<string, Held>, clock: int) {
    forall k | k in keys :: 0.0 <= keys[k].jar.tokens && keys[k].jar.ts <= clock && keys[k].ttl >= IDLE_TTL
  }

  /** What the key can still pay for until t2, an absent jar counting as full. */
  function Worth(keys: map<string, Held>, key: string, capacity: real, rate: real, clock: int, t2: int): real {
    if key in keys then keys[key].jar.tokens + Accrued(t2 - keys[key].jar.ts, rate) else Allowance(capacity, rate, clock, t2)
  }

  lemma DrawPays(jar: Jar, now: int, a: Args, rate: real, t2: int)
    requires 0.0 <= jar.tokens && jar.ts <= now <= t2 && 0.0 <= a.capacity && 0.0 <= a.refill <= rate && a.cost > 0.0
    ensures
      var (jar', allowed) := Draw(jar, now, a);
      && 0.0 <= jar'.tokens && jar'.ts == now
      && (if allowed then a.cost else 0.0) + jar'.tokens + Accrued(t2 - now, rate) <= jar.tokens + Accrued(t2 - jar.ts, rate)
  {
    var elapsed := now - jar.ts;
    Product(elapsed as real, 0.0, a.refill);
    Product(elapsed as real, a.refill, rate);
    AccruedSplit(rate, elapsed, t2 - now);
  }

  lemma CallPays(keys: map<string, Held>, clock: int, now: int, a: Args, key: string, capacity: real, rate: real, t2: int)
    requires GoodHeld(keys, clock) && clock <= now <= t2
    requires 0.0 <= a.capacity <= capacity && 0.0 <= a.refill <= rate && a.cost > 0.0
    ensures
      var (keys', allowed) := Called(keys, now, a);
      && GoodHeld(keys', now)
      && (if allowed && a.key == key then a.cost else 0.0) + Worth(keys', key, capacity, rate, now, t2)
         <= Worth(keys, key, capacity, rate, clock, t2)
  {
    AllowanceGrows(capacity, rate, clock, now, t2);
    DrawPays(JarOf(keys, now, a), now, a, rate, t2);
  }

  lemma LapsePays(keys: map<string, Held>, clock: int, k: string, now: int, key: string, capacity: real, rate: real, t2: int)
    requires GoodHeld(keys, clock) && clock <= now <= t2 && 0.0 <= capacity && 0.0 <= rate
    ensures
      var keys' := Lapsed(keys, k, now);
      && GoodHeld(keys', now)
      && Worth(keys', key, capacity, rate, now, t2)
         <= Worth(keys, key, capacity, rate, clock, t2)
            + if key in keys && key !in keys' then JanitorBound.Refund(capacity, rate, IDLE_TTL) else 0.0
  {
    AllowanceGrows(capacity, rate, clock, now, t2);
    if key in keys && key !in Lapsed(keys, k, now) {
      JanitorBound.IdleRefills(keys[key].jar.ts, now, rate, IDLE_TTL, t2);
    }
  }

  /** All replicas together, plans and lanes changing at will below the ceilings, let a key through for
      at most what its jar is worth, and for each lapse what ten minutes do not refill of a full one. */
  lemma {:induction false} SharedBoundOnLanes(keys: map<string, Held>, clock: int, events: seq<Event>, key: string,
                                              capacity: real, rate: real, t2: int)
    requires GoodHeld(keys, clock) && clock <= t2 && 0.0 <= capacity && 0.0 <= rate
    requires Chronological(events, clock) && Under(events, capacity, rate, t2)
    ensures SpentOn(keys, events, key)
            <= Worth(keys, key, capacity, rate, clock, t2)
               + JanitorBound.Times(Lapses(keys, events, key), JanitorBound.Refund(capacity, rate, IDLE_TTL))
    decreases |events|
  {
    if events == [] {
      Product(rate, 0.0, (t2 - clock) as real);
      if key in keys {
        Product(rate, 0.0, (t2 - keys[key].jar.ts) as real);
      }
    } else {
      assert events[0] in events && forall e | e in events[1..] :: e in events;
      match events[0]
      case Call(_, now, a) =>
        CallPays(keys, clock, now, a, key, capacity, rate, t2);
        SharedBoundOnLanes(Called(keys, now, a).0, now, events[1..], key, capacity, rate, t2);
      case Expire(k, now) =>
        LapsePays(keys, clock, k, now, key, capacity, rate, t2);
        SharedBoundOnLanes(Lapsed(keys, k, now), now, events[1..], key, capacity, rate, t2);
        JanitorBound.OnceMore(Lapses(Lapsed(keys, k, now), events[1..], key), JanitorBound.Refund(capacity, rate, IDLE_TTL));
    }
  }

  // ---- When nothing is handed back --------------------------------------------------

  ghost predicate SharedKeeps(capacity: real, rate: real) {
    forall events, key, t1, t2 | t1 <= t2 && Chronological(events, t1) && Under(events, capacity, rate, t2) ::
      SpentOn(map[], events, key) <= Allowance(capacity, rate, t1, t2)
  }

  lemma FirstCall(keys: map<string, Held>, now: int, a: Args, rest: seq<Event>, clock: int)
    ensures SpentOn(keys, [Event.Call(0, now, a)] + rest, a.key)
            == (if Called(keys, now, a).1 then a.cost else 0.0) + SpentOn(Called(keys, now, a).0, rest, a.key)
    ensures Chronological([Event.Call(0, now, a)] + rest, clock) <==> clock <= now && Chronological(rest, now)
  {
    assert ([Event.Call(0, now, a)] + rest)[1..] == rest;
  }

  lemma FirstLapse(keys: map<string, Held>, k: string, now: int, rest: seq<Event>, clock: int)
    ensures SpentOn(keys, [Expire(k, now)] + rest, k) == SpentOn(Lapsed(keys, k, now), rest, k)
    ensures Chronological([Expire(k, now)] + rest, clock) <==> clock <= now && Chronological(rest, now)
  {
    assert ([Expire(k, now)] + rest)[1..] == rest;
  }

  /** Drain the jar, ask once on a plan that holds nothing, and drain a new one ten minutes later. */
  function Refill(key: string, capacity: real, rate: real): seq<Event> {
    var drain := Args(key, capacity, rate, capacity);
    [Event.Call(0, 0, drain)]
    + ([Event.Call(0, 0, Args(key, 0.0, rate, 1.0))] + ([Expire(key, IDLE_TTL)] + ([Event.Call(0, IDLE_TTL, drain)] + [])))
  }

  lemma NothingLasts(rate: real)
    requires 0.0 <= rate
    ensures Ttl(0.0, rate) == IDLE_TTL && Accrued(0, rate) == 0.0 <= Accrued(IDLE_TTL, rate)
  {
    Product(rate, 0.0, IDLE_TTL as real);
    if rate > 0.0 {
      assert 0.0 / rate == 0.0;
    }
  }

  lemma LargeJarRefills(key: string, capacity: real, rate: real)
    requires capacity > Accrued(IDLE_TTL, rate) && 0.0 <= rate
    ensures
      var events := Refill(key, capacity, rate);
      && Chronological(events, 0) && Under(events, capacity, rate, IDLE_TTL)
      && SpentOn(map[], events, key) == 2.0 * capacity > Allowance(capacity, rate, 0, IDLE_TTL)
  {
    var drain, nothing := Args(key, capacity, rate, capacity), Args(key, 0.0, rate, 1.0);
    var fourth := [Event.Call(0, IDLE_TTL, drain)] + [];
    var third := [Expire(key, IDLE_TTL)] + fourth;
    var second := [Event.Call(0, 0, nothing)] + third;
    var drained, held := map[key := Held(Jar(0.0, 0), Ttl(capacity, rate))], map[key := Held(Jar(0.0, 0), IDLE_TTL)];
    NothingLasts(rate);
    assert Called(map[], 0, drain) == (drained, true);
    assert Draw(drained[key].jar, 0, nothing) == (Jar(0.0, 0), false) && drained[key := held[key]] == held;
    assert Lapsed(held, key, IDLE_TTL) == map[];
    assert Called(map[], IDLE_TTL, drain).1;
    FirstCall(map[], 0, drain, second, 0);
    FirstCall(drained, 0, nothing, third, 0);
    FirstLapse(held, key, IDLE_TTL, fourth, 0);
    FirstCall(map[], IDLE_TTL, drain, [], IDLE_TTL);
  }

  /** The exact condition: sharing one Redis, the replicas keep to a jar and the refill on every run if
      and only if ten minutes at the highest rate refill the largest jar. */
  lemma SharedKeepsIff(capacity: real, rate: real)
    requires 0.0 <= capacity && 0.0 <= rate
    ensures SharedKeeps(capacity, rate) <==> capacity <= Accrued(600_000, rate)
  {
    if capacity <= Accrued(IDLE_TTL, rate) {
      forall events, key, t1, t2 | t1 <= t2 && Chronological(events, t1) && Under(events, capacity, rate, t2)
        ensures SpentOn(map[], events, key) <= Allowance(capacity, rate, t1, t2)
      {
        SharedBoundOnLanes(map[], t1, events, key, capacity, rate, t2);
        assert JanitorBound.Times(Lapses(map[], events, key), 0.0) == 0.0;
      }
    } else {
      LargeJarRefills("", capacity, rate);
    }
  }
}
