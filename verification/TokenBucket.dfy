/** The sharded token bucket with its janitor (internal/limiter/tokenbucket.go), and the
    plain jar it must be indistinguishable from: one map, no shards, no eviction.
    Balances and rates are exact reals; times are milliseconds.  */
module TokenBucket {
  import opened Bits

  datatype Bucket = Bucket(tokens: real, lastRefill: int, capacity: real, refill: real)

  datatype Args = Args(key: string, capacity: real, refill: real, cost: real)

  datatype Decision = Decision(allowed: bool, remaining: int)

  function Min(a: real, b: real): real { if a <= b then a else b }

  /** A request that names no cost costs one token. */
  function Price(cost: real): real { if cost == 0.0 then 1.0 else cost }

  function Accrued(ms: int, rate: real): real { ms as real * rate }

  /** The balance of a jar at instant `now`, under the capacity and rate of this request. */
  function Refilled(b: Bucket, now: int, capacity: real, refill: real): real {
    Min(b.tokens + Accrued(now - b.lastRefill, refill), capacity)
  }

  /** One admission against one jar: refill it for the time since, then try to pay. */
  function Serve(b: Bucket, now: int, a: Args): (Bucket, Decision) {
    var tokens := Refilled(b, now, a.capacity, a.refill);
    var allowed := tokens >= Price(a.cost);
    var left := if allowed then tokens - Price(a.cost) else tokens;
    (Bucket(left, now, a.capacity, a.refill), Decision(allowed, left.Floor))
  }

  /** A jar nobody has asked for yet starts full. */
  function JarFor(jars: map<string, Bucket>, now: int, a: Args): Bucket {
    if a.key in jars then jars[a.key] else Bucket(a.capacity, now, a.capacity, a.refill)
  }

  /** One admission on one map of jars. */
  function Check(jars: map<string, Bucket>, now: int, a: Args): (map<string, Bucket>, Decision) {
    var (b, d) := Serve(JarFor(jars, now, a), now, a);
    (jars[a.key := b], d)
  }

  /** May the janitor drop this jar: idle long enough, and full if it were refilled now? */
  predicate Evictable(b: Bucket, now: int, idleFor: int) {
    b.lastRefill <= now - idleFor && b.tokens + Accrued(now - b.lastRefill, b.refill) >= b.capacity
  }

  function Sweep(jars: map<string, Bucket>, now: int, idleFor: int): map<string, Bucket> {
    map k | k in jars && !Evictable(jars[k], now, idleFor) :: jars[k]
  }

  /** A pass over some of the jars: those behind one lock. */
  function SweepPart(jars: map<string, Bucket>, part: set<string>, now: int, idleFor: int): map<string, Bucket> {
    map k | k in jars && !(k in part && Evictable(jars[k], now, idleFor)) :: jars[k]
  }

  /** The mask that picks a shard; `h` is the seeded hash of the key. */
  function ShardIndex(h: nat, shards: nat): (i: nat)
    requires 0 < shards
    ensures i < shards
  {
    And(h, shards - 1)
  }

  /** A hash of the keys: arbitrary, but fixed for the life of the process. */
  type Hash = string -> nat

  /** Which of n shards a key lives in, given a hash already masked to a shard number. */
  function ShardOf(masked: Hash, n: nat, key: string): (i: nat)
    requires 0 < n
    ensures i < n
  {
    if masked(key) < n then masked(key) else 0
  }

  // ---- The limiter itself -----------------------------------------------------------

  class Limiter {
    const hash: Hash
    const shards: array<map<string, Bucket>>

    ghost predicate Valid()
      reads this
    {
      0 < shards.Length
    }

    constructor (hash: Hash, count: nat)
      requires 0 < count
      ensures Valid() && fresh(shards) && this.hash == hash && shards.Length == count
      ensures forall i | 0 <= i < count :: shards[i] == map[]
    {
      this.hash := hash;
      this.shards := new map<string, Bucket>[count](_ => map[]);
    }

    /** The seeded hash, masked to the number of shards. */
    ghost function Masked(): Hash
      requires Valid()
      reads this
    {
      var h, n := hash, shards.Length;
      key => ShardIndex(h(key), n)
    }

    method ShardFor(key: string) returns (i: nat)
      requires Valid()
      ensures i == ShardOf(Masked(), shards.Length, key) == ShardIndex(hash(key), shards.Length)
    {
      i := ShardIndex(hash(key), shards.Length);
    }

    /** Check, under the lock of the key's shard: answers as the plain jar map of that
        shard would, and touches no other shard. */
    method Check(now: int, args: Args) returns (d: Decision)
      requires Valid()
      modifies shards
      ensures (shards[..], d) == ShardedCheck(Masked(), old(shards[..]), now, args)
    {
      var cost := args.cost;
      if cost == 0.0 {
        cost := 1.0;
      }
      var i := ShardFor(args.key);
      var b: Bucket;
      if args.key in shards[i] {
        b := shards[i][args.key];
      } else {
        b := Bucket(args.capacity, now, args.capacity, args.refill);
      }
      ghost var was := b;
      var elapsed := now - b.lastRefill;
      var tokens := Min(b.tokens + Accrued(elapsed, args.refill), args.capacity);
      b := b.(capacity := args.capacity, refill := args.refill);
      b := b.(tokens := tokens, lastRefill := now);
      var allowed := b.tokens >= cost;
      if allowed {
        b := b.(tokens := b.tokens - cost);
      }
      d := Decision(allowed, b.tokens.Floor);
      assert (b, d) == Serve(was, now, args);
      shards[i] := shards[i][args.key := b];
    }

    /** The janitor's pass over one shard. */
    method SweepShard(i: nat, now: int, idleFor: int) returns (freed: nat)
      requires Valid() && i < shards.Length
      modifies shards
      ensures shards[..] == old(shards[..])[i := Sweep(old(shards[i]), now, idleFor)]
      ensures freed == |old(shards[i])| - |Sweep(old(shards[i]), now, idleFor)|
    {
      var jars;
      jars, freed := Discard(shards[i], now, idleFor);
      shards[i] := jars;
    }
  }

  /** The loop of a sweep: visit every jar, in whatever order, and drop the evictable. */
  method Discard(before: map<string, Bucket>, now: int, idleFor: int) returns (jars: map<string, Bucket>, freed: nat)
    ensures jars == Sweep(before, now, idleFor)
    ensures freed == |before| - |jars|
  {
    jars, freed := before, 0;
    var todo := before.Keys;
    while todo != {}
      invariant todo <= jars.Keys <= before.Keys
      invariant forall k | k in jars :: jars[k] == before[k]
      invariant forall k | k in before :: k in jars <==> k in todo || !Evictable(before[k], now, idleFor)
      invariant freed == |before.Keys| - |jars.Keys|
      decreases todo
    {
      var key :| key in todo;
      todo := todo - {key};
      var b := jars[key];
      if b.lastRefill <= now - idleFor {
        var projected := b.tokens + Accrued(now - b.lastRefill, b.refill);
        if projected >= b.capacity {
          assert Evictable(before[key], now, idleFor);
          ghost var was := jars.Keys;
          jars := jars - {key};
          assert jars.Keys == was - {key};
          freed := freed + 1;
        }
      }
    }
  }

  // ---- Shards as a value ------------------------------------------------------------

  function ShardedCheck(hash: Hash, shards: seq<map<string, Bucket>>, now: int, a: Args)
    : (r: (seq<map<string, Bucket>>, Decision))
    requires 0 < |shards|
    ensures |r.0| == |shards|
  {
    var i := ShardOf(hash, |shards|, a.key);
    var (jars, d) := Check(shards[i], now, a);
    (shards[i := jars], d)
  }
}
