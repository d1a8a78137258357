/** Runs of the sharded limiter and of the plain jar map, and what a key can spend. */
module TokenBucketProofs {
  import opened Bits
  import opened TokenBucket

  /** With a power of two of shards, the mask is the hash's remainder, so every shard is in use. */
  lemma ShardIsRemainder(h: nat, n: nat)
    ensures ShardIndex(h, Pow2(n)) == h % Pow2(n)
  {
    AndMask(h, n);
  }

  /** A request let through takes what it costs off the jar, and one that names no cost takes one token. */
  lemma TakesItsCost(b: Bucket, now: int, a: Args)
    ensures
      var (b', d) := Serve(b, now, a);
      b'.tokens == Refilled(b, now, a.capacity, a.refill)
                   - if !d.allowed then 0.0 else if a.cost == 0.0 then 1.0 else a.cost
  {
  }

  /** What can happen to a limiter: an admission, or the janitor reaching one shard.  The
      janitor reads the clock once per pass, so its `now` may be older than the present. */
  datatype Op =
    | CheckOp(now: int, args: Args)
    | SweepOp(shard: nat, now: int, idleFor: int)

  type Shards = seq<map<string, Bucket>>

  function RunSharded(hash: Hash, shards: Shards, ops: seq<Op>): (r: (Shards, seq<Decision>))
    requires 0 < |shards|
    ensures |r.0| == |shards|
    decreases |ops|
  {
    if ops == [] then (shards, [])
    else
      match ops[0]
      case CheckOp(now, args) =>
        var (s, d) := ShardedCheck(hash, shards, now, args);
        var (s', ds) := RunSharded(hash, s, ops[1..]);
        (s', [d] + ds)
      case SweepOp(i, now, idleFor) =>
        RunSharded(hash, if i < |shards| then shards[i := Sweep(shards[i], now, idleFor)] else shards, ops[1..])
  }

  /** The reference: one map, nothing ever evicted. */
  function RunPlain(jars: map<string, Bucket>, ops: seq<Op>): (map<string, Bucket>, seq<Decision>)
    decreases |ops|
  {
    if ops == [] then (jars, [])
    else
      match ops[0]
      case CheckOp(now, args) =>
        var (j, d) := Check(jars, now, args);
        var (j', ds) := RunPlain(j, ops[1..]);
        (j', [d] + ds)
      case SweepOp(_, _, _) => RunPlain(jars, ops[1..])
  }

  /** No admission reads an earlier clock than anything before it. */
  predicate InOrder(ops: seq<Op>, clock: int) {
    ops == [] ||
    match ops[0]
    case CheckOp(now, _) => clock <= now && InOrder(ops[1..], now)
    case SweepOp(_, now, _) => InOrder(ops[1..], if now > clock then now else clock)
  }

  /** A plan: the capacity and refill rate of every key. */
  datatype Plan = Plan(capacity: string -> real, refill: string -> real)

  ghost predicate OnPlan(plan: Plan, ops: seq<Op>) {
    forall op | op in ops && op.CheckOp? ::
      && op.args.capacity == plan.capacity(op.args.key)
      && op.args.refill == plan.refill(op.args.key) >= 0.0
  }

  // ---- Jars ---------------------------------------------------------------------

  lemma Accrues(t0: int, t1: int, last: int, rate: real)
    requires t0 <= t1 && rate >= 0.0
    ensures Accrued(t0 - last, rate) <= Accrued(t1 - last, rate)
  {
  }

  /** A jar that would be full by now serves exactly as a new one does. */
  lemma FullIsFresh(b: Bucket, now: int, a: Args)
    requires b.tokens + Accrued(now - b.lastRefill, a.refill) >= a.capacity
    ensures Serve(b, now, a) == Serve(Bucket(a.capacity, now, a.capacity, a.refill), now, a)
  {
    assert Refilled(b, now, a.capacity, a.refill) == a.capacity;
  }

  /** One unrolling of the runs, for a check. */
  lemma RunCheck(hash: Hash, shards: Shards, jars: map<string, Bucket>, now: int, a: Args, rest: seq<Op>, clock: int)
    requires 0 < |shards|
    ensures RunSharded(hash, shards, [CheckOp(now, a)] + rest).1
            == [ShardedCheck(hash, shards, now, a).1] + RunSharded(hash, ShardedCheck(hash, shards, now, a).0, rest).1
    ensures RunPlain(jars, [CheckOp(now, a)] + rest).1
            == [Check(jars, now, a).1] + RunPlain(Check(jars, now, a).0, rest).1
    ensures InOrder([CheckOp(now, a)] + rest, clock) <==> clock <= now && InOrder(rest, now)
  {
    assert ([CheckOp(now, a)] + rest)[1..] == rest;
  }

  // ---- How much a key can spend -----------------------------------------------------

  /** The cost of what was let through for one key. */
  function Spent(hash: Hash, shards: Shards, ops: seq<Op>, key: string): real
    requires 0 < |shards|
    decreases |ops|
  {
    if ops == [] then 0.0
    else
      match ops[0]
      case CheckOp(now, a) =>
        var (s, d) := ShardedCheck(hash, shards, now, a);
        (if a.key == key then Paid(d, a) else 0.0) + Spent(hash, s, ops[1..], key)
      case SweepOp(i, now, idleFor) =>
        Spent(hash, if i < |shards| then shards[i := Sweep(shards[i], now, idleFor)] else shards, ops[1..], key)
  }

  /** Checks alone; capacities and rates may change at will, below these ceilings. */
  ghost predicate Within(ops: seq<Op>, capacity: real, rate: real, to: int) {
    forall op | op in ops ::
      && op.CheckOp? && op.now <= to
      && 0.0 <= op.args.capacity <= capacity && 0.0 <= op.args.refill <= rate
  }

  lemma Product(t: real, a: real, b: real)
    requires 0.0 <= t && a <= b
    ensures t * a <= t * b
  {
  }

  /** No jar is in debt, and none was touched after instant t. */
  ghost predicate Fine(jars: map<string, Bucket>, t: int) {
    forall k | k in jars :: jars[k].tokens >= 0.0 && jars[k].lastRefill <= t
  }

  ghost predicate AllFine(shards: Shards, t: int) {
    forall i | 0 <= i < |shards| :: Fine(shards[i], t)
  }

  function Paid(d: Decision, a: Args): real {
    if d.allowed then Price(a.cost) else 0.0
  }

  lemma CheckStaysFine(hash: Hash, shards: Shards, t: int, now: int, a: Args)
    requires 0 < |shards| && AllFine(shards, t) && t <= now && 0.0 <= a.capacity && 0.0 <= a.refill
    ensures AllFine(ShardedCheck(hash, shards, now, a).0, now)
  {
    var i := ShardOf(hash, |shards|, a.key);
    assert Fine(shards[i], t);
    var s := ShardedCheck(hash, shards, now, a).0;
    forall j | 0 <= j < |s|
      ensures Fine(s[j], now)
    {
      assert Fine(shards[j], t);
    }
  }

  /** What a jar can still pay for until t2. */
  function Reach(b: Bucket, rate: real, t2: int): real {
    b.tokens + Accrued(t2 - b.lastRefill, rate)
  }

  /** The bound on what a key gets between two instants. */
  function Allowance(capacity: real, rate: real, t1: int, t2: int): real {
    capacity + Accrued(t2 - t1, rate)
  }

  /** An admission pays out of the reach of the jar, and out of the allowance from now on. */
  lemma ServeReach(b: Bucket, now: int, a: Args, capacity: real, rate: real, t2: int)
    requires b.tokens >= 0.0 && b.lastRefill <= now
    requires 0.0 <= a.capacity <= capacity && 0.0 <= a.refill <= rate
    ensures Paid(Serve(b, now, a).1, a) + Reach(Serve(b, now, a).0, rate, t2) <= Reach(b, rate, t2)
    ensures Paid(Serve(b, now, a).1, a) + Reach(Serve(b, now, a).0, rate, t2) <= Allowance(capacity, rate, now, t2)
  {
    var (b', d) := Serve(b, now, a);
  }

  /** A jar bounds what comes after it: its balance, and the refill until the end. */
  lemma {:induction false} JarBound(hash: Hash, shards: Shards, ops: seq<Op>, key: string, capacity: real, rate: real,
                                    t1: int, t2: int)
    requires 0 < |shards| && AllFine(shards, t1) && t1 <= t2 && 0.0 <= rate
    requires Within(ops, capacity, rate, t2) && InOrder(ops, t1)
    requires key in shards[ShardOf(hash, |shards|, key)]
    ensures Spent(hash, shards, ops, key) <= Reach(shards[ShardOf(hash, |shards|, key)][key], rate, t2)
    decreases |ops|
  {
    var i := ShardOf(hash, |shards|, key);
    assert Fine(shards[i], t1);
    if ops == [] {
      Product(rate, 0.0, (t2 - shards[i][key].lastRefill) as real);
    } else {
      assert ops[0] in ops;
      var s := ShardedCheck(hash, shards, ops[0].now, ops[0].args).0;
      CheckStaysFine(hash, shards, t1, ops[0].now, ops[0].args);
      JarBound(hash, s, ops[1..], key, capacity, rate, ops[0].now, t2);
      if ops[0].args.key == key {
        ServeReach(shards[i][key], ops[0].now, ops[0].args, capacity, rate, t2);
      }
    }
  }

  lemma AllowanceGrows(capacity: real, rate: real, t1: int, now: int, t2: int)
    requires t1 <= now <= t2 && 0.0 <= rate && 0.0 <= capacity
    ensures 0.0 <= Allowance(capacity, rate, now, t2) <= Allowance(capacity, rate, t1, t2)
  {
    Product(rate, 0.0, (t2 - now) as real);
    Product(rate, (t2 - now) as real, (t2 - t1) as real);
  }

  /** Where nothing is swept, a key is let through between two instants for at most a jar plus the
      refill in between, from any state a run can reach and whatever the plan changes to meanwhile.
      (What the janitor makes of it is the subject of JanitorBound.) */
  lemma {:induction false} AdmissionBound(hash: Hash, shards: Shards, ops: seq<Op>, key: string, capacity: real,
                                          rate: real, t1: int, t2: int)
    requires 0 < |shards| && AllFine(shards, t1) && t1 <= t2 && 0.0 <= capacity && 0.0 <= rate
    requires Within(ops, capacity, rate, t2) && InOrder(ops, t1)
    ensures Spent(hash, shards, ops, key) <= Allowance(capacity, rate, t1, t2)
    decreases |ops|
  {
    AllowanceGrows(capacity, rate, t1, t1, t2);
    if ops != [] {
      var a, now, i := ops[0].args, ops[0].now, ShardOf(hash, |shards|, key);
      assert ops[0] in ops;
      var s := ShardedCheck(hash, shards, now, a).0;
      CheckStaysFine(hash, shards, t1, now, a);
      AllowanceGrows(capacity, rate, t1, now, t2);
      if a.key == key {
        assert Fine(shards[i], t1);
        ServeReach(JarFor(shards[i], now, a), now, a, capacity, rate, t2);
        JarBound(hash, s, ops[1..], key, capacity, rate, now, t2);
      } else {
        AdmissionBound(hash, s, ops[1..], key, capacity, rate, now, t2);
      }
    }
  }

  /** Every run without sweeps leaves the jars in order, so the bound holds from any of them. */
  lemma {:induction false} RunsStayFine(hash: Hash, shards: Shards, ops: seq<Op>, capacity: real, rate: real, t1: int,
                                        t2: int)
    requires 0 < |shards| && AllFine(shards, t1) && t1 <= t2
    requires Within(ops, capacity, rate, t2) && InOrder(ops, t1)
    ensures AllFine(RunSharded(hash, shards, ops).0, t2)
    decreases |ops|
  {
    if ops == [] {
      forall i | 0 <= i < |shards|
        ensures Fine(shards[i], t2)
      {
        assert Fine(shards[i], t1);
      }
    } else {
      assert ops[0] in ops;
      CheckStaysFine(hash, shards, t1, ops[0].now, ops[0].args);
      RunsStayFine(hash, ShardedCheck(hash, shards, ops[0].now, ops[0].args).0, ops[1..], capacity, rate, ops[0].now, t2);
    }
  }

  /** A limiter of one shard is its jar map. */
  lemma OneShard(hash: Hash, jars: map<string, Bucket>, now: int, a: Args)
    ensures ShardedCheck(hash, [jars], now, a) == ([Check(jars, now, a).0], Check(jars, now, a).1)
  {
    assert [jars][0 := Check(jars, now, a).0] == [Check(jars, now, a).0];
  }
}
