module JanitorBound {
  // What a key can spend while the janitor is at work and its plan changes.

  import opened TokenBucket
  import opened TokenBucketProofs

  /** On one map of jars: an admission, or the janitor's pass over some of them.  The janitor reads
      the clock once for all its passes, so a pass may be under an older one. */
  datatype Act =
    | Ask(now: int, args: Args)
    | Pass(part: set<string>, now: int, idleFor: int)

  /** The jars, the latest clock read, and, for one key, what it was let through for and how often
      its jar was swept. */
  datatype Ledger = Ledger(jars: map<string, Bucket>, clock: int, spent: real, swept: nat)

  function Later(a: int, b: int): int { if a > b then a else b }

  function Entered(l: Ledger, act: Act, key: string): Ledger {
    match act
    case Ask(now, a) =>
      var (jars, d) := Check(l.jars, now, a);
      l.(jars := jars, clock := now, spent := l.spent + if a.key == key then Paid(d, a) else 0.0)
    case Pass(part, now, idleFor) =>
      var jars := SweepPart(l.jars, part, now, idleFor);
      l.(jars := jars, clock := Later(l.clock, now), swept := l.swept + if key in l.jars && key !in jars then 1 else 0)
  }

  function Books(l: Ledger, acts: seq<Act>, key: string): Ledger
    decreases |acts|
  {
    if acts == [] then l else Books(Entered(l, acts[0], key), acts[1..], key)
  }

  /** A run from these jars, from this instant. */
  function Run(jars: map<string, Bucket>, t1: int, acts: seq<Act>, key: string): Ledger {
    Books(Ledger(jars, t1, 0.0, 0), acts, key)
  }

  lemma {:induction false} OneMore(l: Ledger, acts: seq<Act>, x: Act, key: string)
    ensures Books(l, acts + [x], key) == Entered(Books(l, acts, key), x, key)
    decreases |acts|
  {
    if acts == [] {
      assert [] + [x] == [x] && [x][1..] == [];
      assert Books(Entered(l, x, key), [], key) == Entered(l, x, key);
    } else {
      assert (acts + [x])[1..] == acts[1..] + [x];
      OneMore(Entered(l, acts[0], key), acts[1..], x, key);
    }
  }

  // ---- The bound --------------------------------------------------------------------

  /** Plans below the ceilings, clocks in order, and no jar swept that was idle for less. */
  ghost predicate Kept(act: Act, capacity: real, rate: real, idle: nat, clock: int, t2: int) {
    match act
    case Ask(now, a) => clock <= now <= t2 && 0.0 <= a.capacity <= capacity && 0.0 <= a.refill <= rate
    case Pass(_, now, idleFor) => now <= t2 && idleFor >= idle
  }

  ghost predicate AllKept(acts: seq<Act>, capacity: real, rate: real, idle: nat, clock: int, t2: int)
    decreases |acts|
  {
    acts == []
    || (Kept(acts[0], capacity, rate, idle, clock, t2)
        && AllKept(acts[1..], capacity, rate, idle,
                   if acts[0].Ask? then acts[0].now else Later(clock, acts[0].now), t2))
  }

  /** The most a key can still spend until t2: what its jar reaches, and never more than a new jar
      would. */
  function Worth(l: Ledger, key: string, capacity: real, rate: real, t2: int): real {
    var full := Allowance(capacity, rate, l.clock, t2);
    if key in l.jars then Min(Reach(l.jars[key], rate, t2), full) else full
  }

  /** What a sweep can hand back: a full jar, less what it must have refilled while idle. */
  function Refund(capacity: real, rate: real, idle: nat): real {
    if capacity > Accrued(idle, rate) then capacity - Accrued(idle, rate) else 0.0
  }

  lemma AskPays(l: Ledger, now: int, a: Args, key: string, capacity: real, rate: real, t2: int)
    requires Fine(l.jars, l.clock) && l.clock <= now <= t2 && 0.0 <= rate && 0.0 <= capacity
    requires 0.0 <= a.capacity <= capacity && 0.0 <= a.refill <= rate
    ensures
      var l' := Entered(l, Ask(now, a), key);
      && Fine(l'.jars, l'.clock)
      && l'.spent + Worth(l', key, capacity, rate, t2) <= l.spent + Worth(l, key, capacity, rate, t2)
  {
    ServeReach(JarFor(l.jars, now, a), now, a, capacity, rate, t2);
    AllowanceGrows(capacity, rate, l.clock, now, t2);
  }

  lemma PassPays(l: Ledger, part: set<string>, now: int, idleFor: int, key: string, capacity: real, rate: real, idle: nat,
                 t2: int)
    requires Fine(l.jars, l.clock) && l.clock <= t2 && now <= t2 && idleFor >= idle && 0.0 <= rate && 0.0 <= capacity
    ensures
      var l' := Entered(l, Pass(part, now, idleFor), key);
      && Fine(l'.jars, l'.clock)
      && Worth(l', key, capacity, rate, t2)
         <= Worth(l, key, capacity, rate, t2) + if l'.swept > l.swept then Refund(capacity, rate, idle) else 0.0
  {
    var clock := Later(l.clock, now);
    AllowanceGrows(capacity, rate, l.clock, clock, t2);
    if key in l.jars && key !in SweepPart(l.jars, part, now, idleFor) {
      IdleRefills(l.jars[key].lastRefill, clock, rate, idle, t2);
    }
  }

  lemma IdleRefills(last: int, clock: int, rate: real, idle: nat, t2: int)
    requires last + idle <= clock && 0.0 <= rate
    ensures Accrued(t2 - last, rate) >= Accrued(t2 - clock, rate) + Accrued(idle, rate)
  {
    Product(rate, idle as real, (clock - last) as real);
    assert (t2 - last) as real == (t2 - clock) as real + (clock - last) as real;
  }

  function Times(n: nat, x: real): real { n as real * x }

  lemma OnceMore(n: nat, x: real)
    ensures Times(n + 1, x) == Times(n, x) + x
  {
  }

  lemma ActPays(l: Ledger, act: Act, key: string, capacity: real, rate: real, idle: nat, t2: int)
    requires Fine(l.jars, l.clock) && l.clock <= t2 && Kept(act, capacity, rate, idle, l.clock, t2) && 0.0 <= rate && 0.0 <= capacity
    ensures
      var l' := Entered(l, act, key);
      && Fine(l'.jars, l'.clock) && l'.clock <= t2
      && l'.spent + Worth(l', key, capacity, rate, t2) - Times(l'.swept, Refund(capacity, rate, idle))
         <= l.spent + Worth(l, key, capacity, rate, t2) - Times(l.swept, Refund(capacity, rate, idle))
  {
    match act
    case Ask(now, a) => AskPays(l, now, a, key, capacity, rate, t2);
    case Pass(part, now, idleFor) =>
      PassPays(l, part, now, idleFor, key, capacity, rate, idle, t2);
      OnceMore(l.swept, Refund(capacity, rate, idle));
  }

  lemma {:induction false} BooksPay(l: Ledger, acts: seq<Act>, key: string, capacity: real, rate: real, idle: nat, t2: int)
    requires Fine(l.jars, l.clock) && l.clock <= t2 && AllKept(acts, capacity, rate, idle, l.clock, t2) && 0.0 <= rate && 0.0 <= capacity
    ensures
      var l' := Books(l, acts, key);
      && Fine(l'.jars, l'.clock) && l'.clock <= t2
      && l'.spent + Worth(l', key, capacity, rate, t2) - Times(l'.swept, Refund(capacity, rate, idle))
         <= l.spent + Worth(l, key, capacity, rate, t2) - Times(l.swept, Refund(capacity, rate, idle))
    decreases |acts|
  {
    if acts != [] {
      ActPays(l, acts[0], key, capacity, rate, idle, t2);
      BooksPay(Entered(l, acts[0], key), acts[1..], key, capacity, rate, idle, t2);
    }
  }

  lemma NothingOwed(l: Ledger, key: string, capacity: real, rate: real, t2: int)
    requires Fine(l.jars, l.clock) && l.clock <= t2 && 0.0 <= rate && 0.0 <= capacity
    ensures 0.0 <= Worth(l, key, capacity, rate, t2) <= Allowance(capacity, rate, l.clock, t2)
  {
    Product(rate, 0.0, (t2 - l.clock) as real);
    if key in l.jars {
      Product(rate, 0.0, (t2 - l.jars[key].lastRefill) as real);
    }
  }

  /** Between two instants, with passes of the janitor in between and plans changing at will below the
      ceilings, a key is let through for at most a jar, the refill of the interval, and for each time
      its jar was swept the part of a jar that the wait of the janitor does not refill. */
  lemma SweptBound(jars: map<string, Bucket>, acts: seq<Act>, key: string, capacity: real, rate: real, idle: nat, t1: int,
                   t2: int)
    requires Fine(jars, t1) && t1 <= t2 && 0.0 <= capacity && 0.0 <= rate
    requires AllKept(acts, capacity, rate, idle, t1, t2)
    ensures
      var l := Run(jars, t1, acts, key);
      && l.spent <= Allowance(capacity, rate, t1, t2) + Times(l.swept, Refund(capacity, rate, idle))
      && Fine(l.jars, t2)
  {
    var l := Ledger(jars, t1, 0.0, 0);
    BooksPay(l, acts, key, capacity, rate, idle, t2);
    NothingOwed(l, key, capacity, rate, t2);
    NothingOwed(Books(l, acts, key), key, capacity, rate, t2);
  }

  /** One round: drain the jar, ask on a plan that holds nothing, and have the jar swept. */
  function Round(key: string, capacity: real, rate: real, idle: nat, at: int, rest: seq<Act>): seq<Act> {
    [Ask(at, Args(key, capacity, rate, capacity))]
    + ([Ask(at, Args(key, 0.0, rate, 1.0))] + ([Pass({key}, at + idle, idle)] + rest))
  }

  lemma FirstAct(l: Ledger, act: Act, rest: seq<Act>, key: string, capacity: real, rate: real, idle: nat, clock: int, t2: int)
    ensures Books(l, [act] + rest, key) == Books(Entered(l, act, key), rest, key)
    ensures AllKept([act] + rest, capacity, rate, idle, clock, t2)
            <==> Kept(act, capacity, rate, idle, clock, t2)
                 && AllKept(rest, capacity, rate, idle, if act.Ask? then act.now else Later(clock, act.now), t2)
  {
    assert ([act] + rest)[1..] == rest;
  }

  lemma DrainsOnce(key: string, capacity: real, rate: real, at: int)
    requires capacity > 0.0 && 0.0 <= rate
    ensures
      var drain, nothing := Args(key, capacity, rate, capacity), Args(key, 0.0, rate, 1.0);
      && Check(map[], at, drain) == (map[key := Bucket(0.0, at, capacity, rate)], Decision(true, 0))
      && Check(map[key := Bucket(0.0, at, capacity, rate)], at, nothing)
         == (map[key := Bucket(0.0, at, 0.0, rate)], Decision(false, 0))
  {
    assert Accrued(0, rate) == 0.0;
    assert map[key := Bucket(0.0, at, capacity, rate)][key := Bucket(0.0, at, 0.0, rate)] == map[key := Bucket(0.0, at, 0.0, rate)];
  }

  lemma RoundPays(key: string, capacity: real, rate: real, idle: nat, at: int, rest: seq<Act>, spent: real, swept: nat,
                  t2: int)
    requires capacity > Accrued(idle, rate) && 0.0 <= rate && at + idle <= t2
    ensures Books(Ledger(map[], at, spent, swept), Round(key, capacity, rate, idle, at, rest), key)
            == Books(Ledger(map[], at + idle, spent + capacity, swept + 1), rest, key)
    ensures AllKept(rest, capacity, rate, idle, at + idle, t2)
            ==> AllKept(Round(key, capacity, rate, idle, at, rest), capacity, rate, idle, at, t2)
  {
    var third := [Pass({key}, at + idle, idle)] + rest;
    var second := [Ask(at, Args(key, 0.0, rate, 1.0))] + third;
    var l0 := Ledger(map[], at, spent, swept);
    AccruedNothing(rate, idle);
    DrainsOnce(key, capacity, rate, at);
    var l1 := Entered(l0, Ask(at, Args(key, capacity, rate, capacity)), key);
    var l2 := Entered(l1, Ask(at, Args(key, 0.0, rate, 1.0)), key);
    FirstAct(l0, Ask(at, Args(key, capacity, rate, capacity)), second, key, capacity, rate, idle, at, t2);
    FirstAct(l1, Ask(at, Args(key, 0.0, rate, 1.0)), third, key, capacity, rate, idle, at, t2);
    FirstAct(l2, Pass({key}, at + idle, idle), rest, key, capacity, rate, idle, at, t2);
    assert SweepPart(l2.jars, {key}, at + idle, idle) == map[];
  }

  /** The instant after so many waits. */
  function Waits(n: nat, idle: nat): nat {
    if n == 0 then 0 else Waits(n - 1, idle) + idle
  }

  function Rounds(key: string, capacity: real, rate: real, idle: nat, at: int, n: nat): seq<Act>
    decreases n
  {
    if n == 0 then [Ask(at, Args(key, capacity, rate, capacity))] + []
    else Round(key, capacity, rate, idle, at, Rounds(key, capacity, rate, idle, at + idle, n - 1))
  }

  lemma {:induction false} RoundsPay(key: string, capacity: real, rate: real, idle: nat, at: int, n: nat, spent: real,
                                     swept: nat, t2: int)
    requires capacity > Accrued(idle, rate) && 0.0 <= rate && at + Waits(n, idle) == t2
    ensures
      var acts := Rounds(key, capacity, rate, idle, at, n);
      var l := Books(Ledger(map[], at, spent, swept), acts, key);
      && AllKept(acts, capacity, rate, idle, at, t2)
      && l.spent == spent + Times(n + 1, capacity) && l.swept == swept + n
    decreases n
  {
    AccruedNothing(rate, idle);
    OnceMore(n, capacity);
    if n == 0 {
      var act := Ask(at, Args(key, capacity, rate, capacity));
      DrainsOnce(key, capacity, rate, at);
      FirstAct(Ledger(map[], at, spent, swept), act, [], key, capacity, rate, idle, at, t2);
    } else {
      RoundsPay(key, capacity, rate, idle, at + idle, n - 1, spent + capacity, swept + 1, t2);
      RoundPays(key, capacity, rate, idle, at, Rounds(key, capacity, rate, idle, at + idle, n - 1), spent, swept, t2);
      OnceMore(n - 1, capacity);
    }
  }

  lemma {:induction false} WaitsRefill(n: nat, idle: nat, capacity: real, rate: real)
    ensures Accrued(Waits(n, idle), rate) + Times(n, capacity - Accrued(idle, rate)) == Times(n, capacity)
  {
    if n > 0 {
      WaitsRefill(n - 1, idle, capacity, rate);
      OnceMore(n - 1, capacity);
      OnceMore(n - 1, capacity - Accrued(idle, rate));
      assert Waits(n, idle) as real == Waits(n - 1, idle) as real + idle as real;
    }
  }

  /** No less will do: for every number of sweeps some run spends all of it. */
  lemma SweptBoundIsTight(key: string, capacity: real, rate: real, idle: nat, n: nat) returns (acts: seq<Act>, t2: int)
    requires capacity > Accrued(idle, rate) && 0.0 <= rate
    ensures 0 <= t2 && AllKept(acts, capacity, rate, idle, 0, t2) && Run(map[], 0, acts, key).swept == n
    ensures Run(map[], 0, acts, key).spent == Allowance(capacity, rate, 0, t2) + Times(n, Refund(capacity, rate, idle))
  {
    t2 := Waits(n, idle);
    acts := Rounds(key, capacity, rate, idle, 0, n);
    RoundsPay(key, capacity, rate, idle, 0, n, 0.0, 0, t2);
    WaitsRefill(n, idle, capacity, rate);
    OnceMore(n, capacity);
  }

  // ---- Shards -----------------------------------------------------------------------

  /** The map holds each jar that its own shard holds. */
  ghost predicate Holds(hash: Hash, shards: Shards, jars: map<string, Bucket>) {
    0 < |shards| && forall k ::
      (k in jars <==> k in shards[ShardOf(hash, |shards|, k)])
      && (k in jars ==> jars[k] == shards[ShardOf(hash, |shards|, k)][k])
  }

  /** What happens to a shard happens to the jars that belong in it. */
  function AsAct(hash: Hash, shards: Shards, op: Op): Act
    requires 0 < |shards|
  {
    match op
    case CheckOp(now, a) => Ask(now, a)
    case SweepOp(i, now, idleFor) =>
      Pass(if i < |shards| then set k | k in shards[i] && ShardOf(hash, |shards|, k) == i else {}, now, idleFor)
  }

  function StepSharded(hash: Hash, shards: Shards, op: Op): (s: Shards)
    requires 0 < |shards|
    ensures |s| == |shards|
  {
    match op
    case CheckOp(now, a) => ShardedCheck(hash, shards, now, a).0
    case SweepOp(i, now, idleFor) => if i < |shards| then shards[i := Sweep(shards[i], now, idleFor)] else shards
  }

  function AsActs(hash: Hash, shards: Shards, ops: seq<Op>): seq<Act>
    requires 0 < |shards|
    decreases |ops|
  {
    if ops == [] then [] else [AsAct(hash, shards, ops[0])] + AsActs(hash, StepSharded(hash, shards, ops[0]), ops[1..])
  }

  /** What the admissions of a run are told. */
  function Answers(jars: map<string, Bucket>, acts: seq<Act>): seq<Decision>
    decreases |acts|
  {
    if acts == [] then []
    else
      match acts[0]
      case Ask(now, a) => [Check(jars, now, a).1] + Answers(Check(jars, now, a).0, acts[1..])
      case Pass(part, now, idleFor) => Answers(SweepPart(jars, part, now, idleFor), acts[1..])
  }

  lemma StepHolds(hash: Hash, shards: Shards, l: Ledger, op: Op, key: string)
    requires Holds(hash, shards, l.jars)
    ensures Holds(hash, StepSharded(hash, shards, op), Entered(l, AsAct(hash, shards, op), key).jars)
    ensures op.CheckOp? ==> ShardedCheck(hash, shards, op.now, op.args).1 == Check(l.jars, op.now, op.args).1
  {
    if op.CheckOp? {
      assert JarFor(shards[ShardOf(hash, |shards|, op.args.key)], op.now, op.args) == JarFor(l.jars, op.now, op.args);
    }
  }

  /** A limiter in shards, its janitor visiting them one at a time, is one map of jars on which each
      visit is a pass over a part: it answers alike and lets each key through for as much. */
  lemma {:induction false} ShardsAreOneMap(hash: Hash, shards: Shards, l: Ledger, ops: seq<Op>, key: string)
    requires Holds(hash, shards, l.jars)
    ensures Holds(hash, RunSharded(hash, shards, ops).0, Books(l, AsActs(hash, shards, ops), key).jars)
    ensures Books(l, AsActs(hash, shards, ops), key).spent == l.spent + Spent(hash, shards, ops, key)
    ensures Answers(l.jars, AsActs(hash, shards, ops)) == RunSharded(hash, shards, ops).1
    decreases |ops|
  {
    if ops != [] {
      var s, acts := StepSharded(hash, shards, ops[0]), AsActs(hash, shards, ops);
      StepHolds(hash, shards, l, ops[0], key);
      assert acts[0] == AsAct(hash, shards, ops[0]) && acts[1..] == AsActs(hash, s, ops[1..]);
      ShardsAreOneMap(hash, s, Entered(l, acts[0], key), ops[1..], key);
    }
  }

  // ---- When the bound holds ---------------------------------------------------------

  /** The same of a run on shards. */
  ghost predicate Below(ops: seq<Op>, capacity: real, rate: real, idle: nat, t2: int) {
    forall op | op in ops :: op.now <= t2
      && (op.CheckOp? ==> 0.0 <= op.args.capacity <= capacity && 0.0 <= op.args.refill <= rate)
      && (op.SweepOp? ==> op.idleFor >= idle)
  }

  lemma {:induction false} ActsKept(hash: Hash, shards: Shards, ops: seq<Op>, capacity: real, rate: real, idle: nat,
                                    clock: int, t2: int)
    requires 0 < |shards| && Below(ops, capacity, rate, idle, t2) && InOrder(ops, clock)
    ensures AllKept(AsActs(hash, shards, ops), capacity, rate, idle, clock, t2)
    decreases |ops|
  {
    if ops != [] {
      var s, acts := StepSharded(hash, shards, ops[0]), AsActs(hash, shards, ops);
      assert ops[0] in ops && forall op | op in ops[1..] :: op in ops;
      assert acts[0] == AsAct(hash, shards, ops[0]) && acts[1..] == AsActs(hash, s, ops[1..]);
      ActsKept(hash, s, ops[1..], capacity, rate, idle, if ops[0].CheckOp? then ops[0].now else Later(clock, ops[0].now), t2);
    }
  }

  /** The jars of a sharded limiter, as one map. */
  function Gathered(hash: Hash, shards: Shards): (jars: map<string, Bucket>)
    requires 0 < |shards|
    ensures Holds(hash, shards, jars)
  {
    var keys := set i, k | 0 <= i < |shards| && k in shards[i] :: k;
    map k | k in keys && k in shards[ShardOf(hash, |shards|, k)] :: shards[ShardOf(hash, |shards|, k)][k]
  }

  /** The promise of a rate limiter, its janitor at work: whatever plans and lanes a key is moved
      between below the ceilings, no interval lets it through for more than a jar and the refill. */
  ghost predicate KeepsBound(capacity: real, rate: real, idle: nat) {
    forall hash, shards, ops, key, t1, t2 |
      && 0 < |shards| && AllFine(shards, t1) && t1 <= t2
      && Below(ops, capacity, rate, idle, t2) && InOrder(ops, t1) ::
        Spent(hash, shards, ops, key) <= Allowance(capacity, rate, t1, t2)
  }

  lemma LongIdleKeeps(hash: Hash, shards: Shards, ops: seq<Op>, key: string, capacity: real, rate: real, idle: nat,
                      t1: int, t2: int)
    requires 0 < |shards| && AllFine(shards, t1) && t1 <= t2 && 0.0 <= capacity <= Accrued(idle, rate) && 0.0 <= rate
    requires Below(ops, capacity, rate, idle, t2) && InOrder(ops, t1)
    ensures Spent(hash, shards, ops, key) <= Allowance(capacity, rate, t1, t2)
  {
    var jars, acts := Gathered(hash, shards), AsActs(hash, shards, ops);
    assert Fine(jars, t1) by {
      forall k | k in jars
        ensures jars[k].tokens >= 0.0 && jars[k].lastRefill <= t1
      {
        assert Fine(shards[ShardOf(hash, |shards|, k)], t1);
      }
    }
    ActsKept(hash, shards, ops, capacity, rate, idle, t1, t2);
    SweptBound(jars, acts, key, capacity, rate, idle, t1, t2);
    ShardsAreOneMap(hash, shards, Ledger(jars, t1, 0.0, 0), ops, key);
    assert Times(Run(jars, t1, acts, key).swept, 0.0) == 0.0;
  }

  lemma CheckFirst(hash: Hash, jars: map<string, Bucket>, now: int, a: Args, rest: seq<Op>, clock: int)
    ensures Spent(hash, [jars], [CheckOp(now, a)] + rest, a.key)
            == Paid(Check(jars, now, a).1, a) + Spent(hash, [Check(jars, now, a).0], rest, a.key)
    ensures InOrder([CheckOp(now, a)] + rest, clock) <==> clock <= now && InOrder(rest, now)
  {
    assert ([CheckOp(now, a)] + rest)[1..] == rest;
    OneShard(hash, jars, now, a);
  }

  lemma SweepFirst(hash: Hash, jars: map<string, Bucket>, now: int, idleFor: int, rest: seq<Op>, key: string, clock: int)
    requires clock <= now
    ensures Spent(hash, [jars], [SweepOp(0, now, idleFor)] + rest, key) == Spent(hash, [Sweep(jars, now, idleFor)], rest, key)
    ensures InOrder([SweepOp(0, now, idleFor)] + rest, clock) <==> InOrder(rest, now)
  {
    assert ([SweepOp(0, now, idleFor)] + rest)[1..] == rest;
    assert [jars][0 := Sweep(jars, now, idleFor)] == [Sweep(jars, now, idleFor)];
  }

  /** Otherwise: drain the jar, ask once on a plan that holds nothing, let the janitor take the jar
      when it has waited long enough, and drain a new one. */
  function Refill(key: string, capacity: real, rate: real, idle: nat): seq<Op> {
    var drain := Args(key, capacity, rate, capacity);
    [CheckOp(0, drain)] + ([CheckOp(0, Args(key, 0.0, rate, 1.0))] + ([SweepOp(0, idle, idle)] + ([CheckOp(idle, drain)] + [])))
  }

  lemma ShortIdleRefills(hash: Hash, key: string, capacity: real, rate: real, idle: nat)
    requires capacity > Accrued(idle, rate) && 0.0 <= rate
    ensures
      var ops := Refill(key, capacity, rate, idle);
      && Below(ops, capacity, rate, idle, idle) && InOrder(ops, 0)
      && Spent(hash, [map[]], ops, key) == 2.0 * capacity > Allowance(capacity, rate, 0, idle)
  {
    var drain, nothing := Args(key, capacity, rate, capacity), Args(key, 0.0, rate, 1.0);
    var fourth := [CheckOp(idle, drain)] + [];
    var third := [SweepOp(0, idle, idle)] + fourth;
    var second := [CheckOp(0, nothing)] + third;
    var drained, held := map[key := Bucket(0.0, 0, capacity, rate)], map[key := Bucket(0.0, 0, 0.0, rate)];
    AccruedNothing(rate, idle);
    assert Check(map[], 0, drain) == (drained, Decision(true, 0));
    assert Serve(drained[key], 0, nothing) == (held[key], Decision(false, 0)) && drained[key := held[key]] == held;
    assert Sweep(held, idle, idle) == map[];
    assert Check(map[], idle, drain).1 == Decision(true, 0);
    CheckFirst(hash, map[], 0, drain, second, 0);
    CheckFirst(hash, drained, 0, nothing, third, 0);
    SweepFirst(hash, held, idle, idle, fourth, key, 0);
    CheckFirst(hash, map[], idle, drain, [], idle);
  }

  lemma AccruedNothing(rate: real, idle: nat)
    requires 0.0 <= rate
    ensures Accrued(0, rate) == 0.0 <= Accrued(idle, rate)
  {
    Product(rate, 0.0, idle as real);
  }

  /** The exact condition: the promise holds on every run of the sharded limiter, swept of what has
      been idle for at least so long, if and only if that wait refills the largest jar at the
      highest rate. */
  lemma KeepsBoundIff(capacity: real, rate: real, idle: nat)
    requires 0.0 <= capacity && 0.0 <= rate
    ensures KeepsBound(capacity, rate, idle) <==> capacity <= Accrued(idle, rate)
  {
    if capacity <= Accrued(idle, rate) {
      forall hash, shards, ops, key, t1, t2 |
        && 0 < |shards| && AllFine(shards, t1) && t1 <= t2
        && Below(ops, capacity, rate, idle, t2) && InOrder(ops, t1)
        ensures Spent(hash, shards, ops, key) <= Allowance(capacity, rate, t1, t2)
      {
        LongIdleKeeps(hash, shards, ops, key, capacity, rate, idle, t1, t2);
      }
    } else {
      var hash: Hash := _ => 0;
      ShortIdleRefills(hash, "", capacity, rate, idle);
      assert AllFine([map[]], 0);
    }
  }
}
