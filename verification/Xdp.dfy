/** The kernel fast path (xdp/bpf/fastpath.c) on one CPU, with resident entries.  Every
    operation of the C code on 64-bit unsigned integers is written with its wrap-around.  */
module Xdp {
  const NSEC_PER_SEC: int := 1_000_000_000
  const TWO64: int := 0x1_0000_0000_0000_0000

  type u64 = x: int | 0 <= x < TWO64

  function Wrap(x: int): u64 { x % TWO64 }

  /** A number of whole packets, in the scaled units of a jar. */
  function Scaled(n: int): int { n * 1_000_000_000 }

  /** What `elapsed` nanoseconds are worth, in scaled units. */
  function Gained(c: Config, elapsed: int): int { elapsed * c.ratePps }

  /** A source address; IPv4 is stored IPv4-mapped. */
  type IpKey = seq<int>

  datatype Config = Config(ratePps: u64, burst: u64)

  datatype Bucket = Bucket(tokens: u64, lastNs: u64)

  /** Refill a resident jar and try to pay one packet: the new jar, and whether to drop. */
  function Spend(c: Config, b: Bucket, now: u64): (Bucket, bool) {
    var cap := Wrap(Scaled(c.burst));
    var elapsed := if now > b.lastNs then Wrap(now - b.lastNs) else 0;
    var refilled := if elapsed >= Wrap(NSEC_PER_SEC * 60) then cap
                    else Wrap(b.tokens + Wrap(Gained(c, elapsed)));
    var tokens := if refilled > cap then cap else refilled;
    if tokens < NSEC_PER_SEC then (Bucket(tokens, now), true)
    else (Bucket(Wrap(tokens - NSEC_PER_SEC), now), false)
  }

  /** over_budget: a zero setting disables the check, a new address gets a full jar. */
  function OverBudget(c: Config, buckets: map<IpKey, Bucket>, key: IpKey, now: u64): (map<IpKey, Bucket>, bool) {
    if c.ratePps == 0 || c.burst == 0 then (buckets, false)
    else if key !in buckets then
      (buckets[key := Bucket(Wrap(Wrap(Scaled(c.burst)) - NSEC_PER_SEC), now)], false)
    else
      var (b, drop) := Spend(c, buckets[key], now);
      (buckets[key := b], drop)
  }

  /** A ban holds until its instant; 0 means until removed. */
  predicate BanLive(until: u64, now: u64) {
    until == 0 || now < until
  }

  datatype Verdict = Passed | DroppedBanned | DroppedRate

  /** The two tables a packet meets. */
  datatype Tables = Tables(buckets: map<IpKey, Bucket>, banned: map<IpKey, u64>)

  /** One packet: the ban, then the budget. */
  function Handled(c: Config, t: Tables, key: IpKey, now: u64): (Tables, Verdict) {
    if key in t.banned && BanLive(t.banned[key], now) then (t, DroppedBanned)
    else
      var (buckets, drop) := OverBudget(c, t.buckets, key, now);
      (Tables(buckets, t.banned - {key}), if drop then DroppedRate else Passed)
  }

  class FastPath {
    const config: Config
    var buckets: map<IpKey, Bucket>
    var banned: map<IpKey, u64>
    var passed: u64
    var droppedBanned: u64
    var droppedRate: u64

    constructor (config: Config)
      ensures this.config == config && buckets == map[] && banned == map[]
      ensures passed == droppedBanned == droppedRate == 0
    {
      this.config := config;
      buckets, banned := map[], map[];
      passed, droppedBanned, droppedRate := 0, 0, 0;
    }

    /** Check 1.  A ban that has run out is removed on the spot. */
    method IsBanned(key: IpKey, now: u64) returns (hit: bool)
      modifies this`banned
      ensures hit <==> key in old(banned) && BanLive(old(banned)[key], now)
      ensures banned == if key in old(banned) && !hit then old(banned) - {key} else old(banned)
    {
      if key !in banned {
        return false;
      }
      var until := banned[key];
      if until != 0 && now >= until {
        banned := banned - {key};
        return false;
      }
      return true;
    }

    /** Check 2. */
    method Charge(key: IpKey, now: u64) returns (drop: bool)
      modifies this`buckets
      ensures (buckets, drop) == OverBudget(config, old(buckets), key, now)
    {
      if config.ratePps == 0 || config.burst == 0 {
        return false;
      }
      var cap := Wrap(Scaled(config.burst));
      if key !in buckets {
        buckets := buckets[key := Bucket(Wrap(cap - NSEC_PER_SEC), now)];
        return false;
      }
      var b := buckets[key];
      var elapsed: u64 := if now > b.lastNs then Wrap(now - b.lastNs) else 0;
      var tokens := b.tokens;
      if elapsed >= Wrap(NSEC_PER_SEC * 60) {
        tokens := cap;
      } else {
        tokens := Wrap(tokens + Wrap(Gained(config, elapsed)));
      }
      if tokens > cap {
        tokens := cap;
      }
      b := b.(lastNs := now);
      if tokens < NSEC_PER_SEC {
        buckets := buckets[key := b.(tokens := tokens)];
        return true;
      }
      buckets := buckets[key := b.(tokens := Wrap(tokens - NSEC_PER_SEC))];
      return false;
    }

    /** One packet from an IP source.  A banned source spends nothing, and exactly one
        counter moves. */
    method Packet(key: IpKey, now: u64) returns (v: Verdict)
      modifies this
      ensures (Tables(buckets, banned), v) == Handled(config, Tables(old(buckets), old(banned)), key, now)
      ensures v.DroppedBanned? <==> key in old(banned) && BanLive(old(banned)[key], now)
      ensures v.DroppedBanned? ==> buckets == old(buckets)
      ensures !v.DroppedBanned? ==> (buckets, v.DroppedRate?) == OverBudget(config, old(buckets), key, now)
      ensures banned == if key in old(banned) && !v.DroppedBanned? then old(banned) - {key} else old(banned)
      ensures passed == Wrap(old(passed) + if v.Passed? then 1 else 0)
      ensures droppedBanned == Wrap(old(droppedBanned) + if v.DroppedBanned? then 1 else 0)
      ensures droppedRate == Wrap(old(droppedRate) + if v.DroppedRate? then 1 else 0)
    {
      var hit := IsBanned(key, now);
      if hit {
        droppedBanned := Wrap(droppedBanned + 1);
        return DroppedBanned;
      }
      assert banned == old(banned) - {key};
      var drop := Charge(key, now);
      if drop {
        droppedRate := Wrap(droppedRate + 1);
        return DroppedRate;
      }
      passed := Wrap(passed + 1);
      return Passed;
    }
  }
}
