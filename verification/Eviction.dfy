module Eviction {
  // When the janitor is noticed: a jar full on the terms of its last request may not be on the next.

  import opened TokenBucket
  import opened TokenBucketProofs

  /** What a request brings with it: its plan's capacity and refill rate, lanes included. */
  datatype Terms = Terms(capacity: real, refill: real)

  function TermsOf(a: Args): Terms {
    Terms(a.capacity, a.refill)
  }

  function Larger(a: real, b: real): real { if a >= b then a else b }

  // ---- One jar ----------------------------------------------------------------------

  function NewJar(now: int, a: Args): Bucket {
    Bucket(a.capacity, now, a.capacity, a.refill)
  }

  /** A cost at which a balance below t shows. */
  function Telling(low: real, t: real): real {
    if t != 0.0 then t else low / 2.0
  }

  /** Forgetting a jar goes unnoticed, whatever the next request costs, exactly when the jar would
      be full in that request's own terms, whoever swept it and when. */
  lemma ForgottenIff(b: Bucket, now: int, t: Terms, key: string)
    ensures
      (forall cost :: Serve(b, now, Args(key, t.capacity, t.refill, cost)).1
                      == Serve(NewJar(now, Args(key, t.capacity, t.refill, cost)), now, Args(key, t.capacity, t.refill, cost)).1)
      <==> b.tokens + Accrued(now - b.lastRefill, t.refill) >= t.capacity
  {
    var left := b.tokens + Accrued(now - b.lastRefill, t.refill);
    if left >= t.capacity {
      forall cost
        ensures Serve(b, now, Args(key, t.capacity, t.refill, cost)).1
                == Serve(NewJar(now, Args(key, t.capacity, t.refill, cost)), now, Args(key, t.capacity, t.refill, cost)).1
      {
        FullIsFresh(b, now, Args(key, t.capacity, t.refill, cost));
      }
    } else {
      TellsApart(b, now, Args(key, t.capacity, t.refill, Telling(left, t.capacity)));
    }
  }

  lemma TellsApart(b: Bucket, now: int, a: Args)
    requires b.tokens + Accrued(now - b.lastRefill, a.refill) < a.capacity
    requires a.cost == Telling(b.tokens + Accrued(now - b.lastRefill, a.refill), a.capacity)
    ensures !Serve(b, now, a).1.allowed && Serve(NewJar(now, a), now, a).1.allowed
  {
  }

  // ---- A change of terms ------------------------------------------------------------

  /** The least a jar asked for on terms p can have held, if it is full s ms later. */
  function Least(p: Terms, s: int): real {
    Larger(Min(0.0, p.capacity), p.capacity - Accrued(s, p.refill))
  }

  /** What such a jar holds by then at the rate of q. */
  function Due(p: Terms, q: Terms, s: int): real {
    Least(p, s) + Accrued(s, q.refill)
  }

  /** The age at which a jar on terms p is worst off on terms q: the earliest the janitor may take
      it, or, at a lower rate, about when an empty one has filled. */
  function WorstAge(p: Terms, q: Terms, idle: nat): int {
    if p.refill <= q.refill || q.refill < 0.0 then idle
    else
      var full := (p.capacity / p.refill).Floor;
      if full > idle then full else idle
  }

  /** No jar idle for so long and full on terms p is short on terms q. */
  predicate Hides(p: Terms, q: Terms, idle: nat) {
    var s := WorstAge(p, q, idle);
    q.capacity <= Due(p, q, s) && q.capacity <= Due(p, q, s + 1)
  }

  lemma AccruedOrder(s: int, t: int, rate: real)
    requires s <= t && rate >= 0.0
    ensures Accrued(s, rate) <= Accrued(t, rate)
  {
  }

  lemma RateOrder(s: int, a: real, b: real)
    requires 0 <= s && a <= b
    ensures Accrued(s, a) <= Accrued(s, b)
  {
  }

  lemma AccruedGap(s: int, t: int, a: real, b: real)
    requires s <= t && a <= b
    ensures Accrued(t, a) - Accrued(s, a) <= Accrued(t, b) - Accrued(s, b)
  {
    RateOrder(t - s, a, b);
    assert t as real == s as real + (t - s) as real;
  }

  /** Where no rate is cut, waiting longer only helps. */
  lemma DueGrows(p: Terms, q: Terms, s: int, t: int)
    requires 0 <= s <= t && p.refill >= 0.0 && q.refill >= 0.0
    requires p.refill <= q.refill
    ensures Due(p, q, s) <= Due(p, q, t)
  {
    AccruedOrder(s, t, q.refill);
    AccruedGap(s, t, p.refill, q.refill);
  }

  /** Where it is, the worst is over once an empty jar has filled. */
  lemma DueDips(p: Terms, q: Terms, full: int, s: int)
    requires p.capacity >= 0.0 && p.refill > q.refill >= 0.0 && 0 <= s
    requires full == (p.capacity / p.refill).Floor
    ensures s <= full ==> Due(p, q, s) >= Due(p, q, full)
    ensures full < s ==> forall t | full < t <= s :: Due(p, q, s) >= Due(p, q, t)
  {
    FullTime(p.capacity, p.refill, full);
    if s <= full {
      AccruedGap(s, full, q.refill, p.refill);
      AccruedOrder(s, full, p.refill);
    } else {
      forall t | full < t <= s
        ensures Due(p, q, s) >= Due(p, q, t)
      {
        AccruedOrder(full + 1, t, p.refill);
        AccruedOrder(full + 1, s, p.refill);
        AccruedOrder(t, s, q.refill);
      }
    }
  }

  lemma FullTime(capacity: real, rate: real, full: int)
    requires capacity >= 0.0 && rate > 0.0 && full == (capacity / rate).Floor
    ensures 0 <= full && Accrued(full, rate) <= capacity < Accrued(full + 1, rate)
  {
    var q := capacity / rate;
    assert q * rate == capacity;
    assert q >= 0.0;
    Scaled(full as real, q, rate);
    var gap := (full + 1) as real - q;
    assert gap > 0.0 && gap * rate > 0.0;
    assert gap * rate == Accrued(full + 1, rate) - q * rate;
  }

  lemma Scaled(a: real, b: real, rate: real)
    requires a <= b && rate > 0.0
    ensures a * rate <= b * rate
  {
  }

  /** Two ages decide for all. */
  lemma HidesIff(p: Terms, q: Terms, idle: nat)
    requires p.refill >= 0.0 && q.refill >= 0.0 && (p.capacity >= 0.0 || p.refill <= q.refill)
    ensures Hides(p, q, idle) <==> forall s | idle <= s :: q.capacity <= Due(p, q, s)
  {
    var w := WorstAge(p, q, idle);
    forall s | Hides(p, q, idle) && idle <= s
      ensures q.capacity <= Due(p, q, s)
    {
      if p.refill <= q.refill {
        DueGrows(p, q, w, s);
      } else {
        var full := (p.capacity / p.refill).Floor;
        DueDips(p, q, full, s);
        if full < s && w < s {
          assert full < w + 1 <= s;
        }
      }
    }
    if forall s | idle <= s :: q.capacity <= Due(p, q, s) {
      assert q.capacity <= Due(p, q, w) && q.capacity <= Due(p, q, w + 1);
    }
  }

  /** A plan that shrinks, or fills faster, hides the janitor however little it waits. */
  lemma ShrinkingHides(p: Terms, q: Terms, idle: nat)
    requires 0.0 <= p.refill <= q.refill && q.capacity <= p.capacity
    ensures Hides(p, q, idle)
  {
    DueGrows(p, q, 0, idle);
    DueGrows(p, q, 0, idle + 1);
    assert Accrued(0, p.refill) == 0.0 == Accrued(0, q.refill);
  }

  /** With a janitor that need not wait, every rise in capacity shows. */
  lemma RiseShows(p: Terms, q: Terms)
    requires p.refill >= 0.0 && q.refill >= 0.0 && 0.0 <= p.capacity < q.capacity
    ensures !Hides(p, q, 0)
  {
    HidesIff(p, q, 0);
    assert Accrued(0, p.refill) == 0.0 == Accrued(0, q.refill);
    assert Due(p, q, 0) == p.capacity;
  }

  /** With one that waits, a rise alone shows exactly when the new jar is more than the wait refills. */
  lemma RiseShowsIff(capacity: real, more: real, rate: real, idle: nat)
    requires 0.0 <= capacity < more && rate >= 0.0
    ensures !Hides(Terms(capacity, rate), Terms(more, rate), idle) <==> more > Accrued(idle, rate)
  {
    var p, q := Terms(capacity, rate), Terms(more, rate);
    DueGrows(p, q, idle, idle + 1);
    AccruedOrder(0, idle, rate);
    assert Accrued(0, rate) == 0.0;
  }

  /** A cut in the rate alone shows exactly when the new rate takes more than one millisecond to
      fill the jar. */
  lemma CutShowsIff(capacity: real, rate: real, less: real)
    requires capacity >= 0.0 && rate > less >= 0.0
    ensures !Hides(Terms(capacity, rate), Terms(capacity, less), 0) <==> less < capacity
  {
    var p, q := Terms(capacity, rate), Terms(capacity, less);
    var full := (capacity / rate).Floor;
    FullTime(capacity, rate, full);
    assert WorstAge(p, q, 0) == full;
    if full == 0 {
      assert Accrued(1, less) == less && Accrued(1, rate) == rate && Accrued(0, rate) == 0.0 == Accrued(0, less);
    } else {
      AccruedOrder(1, full, rate);
      assert Accrued(1, rate) == rate;
      assert Accrued(full, less) < Accrued(full, rate);
    }
  }

  // ---- Runs -------------------------------------------------------------------------

  /** Which terms may follow which for one key. */
  type Changes = (Terms, Terms) -> bool

  /** A change of plan that may happen; a capacity below zero stays as it is. */
  ghost predicate Follows(allowed: Changes, p: Terms, q: Terms) {
    p == q || (allowed(p, q) && p.capacity >= 0.0)
  }

  /** A run in which every key only ever changes terms as allowed, and no sweep takes what has been
      idle for less than so long.  `last` is what each key was last asked on. */
  ghost predicate Obeys(allowed: Changes, idle: nat, last: map<string, Terms>, ops: seq<Op>)
    decreases |ops|
  {
    ops == [] ||
    match ops[0]
    case CheckOp(_, a) =>
      && a.refill >= 0.0
      && (a.key in last ==> Follows(allowed, last[a.key], TermsOf(a)))
      && Obeys(allowed, idle, last[a.key := TermsOf(a)], ops[1..])
    case SweepOp(_, _, idleFor) => (idle == 0 || idleFor >= idle) && Obeys(allowed, idle, last, ops[1..])
  }

  ghost predicate AllHide(allowed: Changes, idle: nat) {
    forall p, q | allowed(p, q) && p.capacity >= 0.0 && p.refill >= 0.0 && q.refill >= 0.0 :: Hides(p, q, idle)
  }

  /** A jar that went was full at some age no greater than it would have now. */
  ghost predicate WentFull(b: Bucket, clock: int, idle: nat) {
    exists s :: idle <= s <= clock - b.lastRefill && b.tokens + Accrued(s, b.refill) >= b.capacity
  }

  /** A jar of the plain map that the limiter may have let go: nothing it could tell is lost. */
  ghost predicate Sound(b: Bucket, t: Terms, clock: int) {
    && t == Terms(b.capacity, b.refill) && b.refill >= 0.0
    && b.tokens >= Min(0.0, b.capacity) && b.lastRefill <= clock
  }

  /** The limiter either has the jar the plain map has, or has let it go when full. */
  ghost predicate Mirrors(hash: Hash, shards: Shards, jars: map<string, Bucket>, last: map<string, Terms>, clock: int,
                          idle: nat, k: string)
    requires 0 < |shards|
  {
    var i := ShardOf(hash, |shards|, k);
    && (k in shards[i] ==> k in jars && jars[k] == shards[i][k])
    && (k in jars <==> k in last)
    && (k in jars ==> Sound(jars[k], last[k], clock) && (k !in shards[i] ==> WentFull(jars[k], clock, idle)))
  }

  ghost predicate Mirror(hash: Hash, shards: Shards, jars: map<string, Bucket>, last: map<string, Terms>, clock: int,
                         idle: nat) {
    0 < |shards| && forall k :: Mirrors(hash, shards, jars, last, clock, idle, k)
  }

  lemma LaterStill(b: Bucket, clock: int, now: int, idle: nat)
    requires WentFull(b, clock, idle) && clock <= now
    ensures WentFull(b, now, idle)
  {
    var s :| idle <= s <= clock - b.lastRefill && b.tokens + Accrued(s, b.refill) >= b.capacity;
    assert idle <= s <= now - b.lastRefill;
  }

  /** A jar that went is full on any terms that hide it. */
  lemma WentUnseen(b: Bucket, p: Terms, q: Terms, clock: int, now: int, idle: nat)
    requires Sound(b, p, clock) && WentFull(b, clock, idle) && clock <= now
    requires p == q || (Hides(p, q, idle) && p.capacity >= 0.0 && q.refill >= 0.0)
    ensures b.tokens + Accrued(now - b.lastRefill, q.refill) >= q.capacity
  {
    var s :| idle <= s <= clock - b.lastRefill && b.tokens + Accrued(s, b.refill) >= b.capacity;
    if p != q {
      HidesIff(p, q, idle);
      assert q.capacity <= Due(p, q, s);
    }
    AccruedOrder(s, now - b.lastRefill, q.refill);
  }

  lemma ServeSound(b: Bucket, p: Terms, clock: int, now: int, a: Args)
    requires Sound(b, p, clock) && clock <= now && a.refill >= 0.0
    requires TermsOf(a) == p || p.capacity >= 0.0
    ensures Sound(Serve(b, now, a).0, TermsOf(a), now)
  {
    AccruedOrder(0, now - b.lastRefill, a.refill);
    assert Accrued(0, a.refill) == 0.0;
  }

  lemma CheckMirrors(hash: Hash, shards: Shards, jars: map<string, Bucket>, last: map<string, Terms>, clock: int,
                     allowed: Changes, idle: nat, now: int, a: Args)
    requires Mirror(hash, shards, jars, last, clock, idle) && clock <= now && AllHide(allowed, idle)
    requires a.refill >= 0.0 && (a.key in last ==> Follows(allowed, last[a.key], TermsOf(a)))
    ensures ShardedCheck(hash, shards, now, a).1 == Check(jars, now, a).1
    ensures Mirror(hash, ShardedCheck(hash, shards, now, a).0, Check(jars, now, a).0, last[a.key := TermsOf(a)], now, idle)
  {
    var i, k0 := ShardOf(hash, |shards|, a.key), a.key;
    assert Mirrors(hash, shards, jars, last, clock, idle, k0);
    assert Serve(JarFor(shards[i], now, a), now, a) == Serve(JarFor(jars, now, a), now, a) by {
      if k0 in jars && k0 !in shards[i] {
        WentUnseen(jars[k0], last[k0], TermsOf(a), clock, now, idle);
        FullIsFresh(jars[k0], now, a);
      }
    }
    assert Sound(Serve(JarFor(jars, now, a), now, a).0, TermsOf(a), now) by {
      if k0 in jars {
        ServeSound(jars[k0], last[k0], clock, now, a);
      } else {
        ServeSound(NewJar(now, a), TermsOf(a), now, now, a);
      }
    }
    var s', j', last' := ShardedCheck(hash, shards, now, a).0, Check(jars, now, a).0, last[k0 := TermsOf(a)];
    forall k
      ensures Mirrors(hash, s', j', last', now, idle, k)
    {
      MirrorElsewhere(hash, shards, jars, last, clock, idle, now, a, k);
    }
  }

  lemma MirrorElsewhere(hash: Hash, shards: Shards, jars: map<string, Bucket>, last: map<string, Terms>, clock: int,
                        idle: nat, now: int, a: Args, k: string)
    requires 0 < |shards| && Mirrors(hash, shards, jars, last, clock, idle, k) && clock <= now
    requires Serve(JarFor(shards[ShardOf(hash, |shards|, a.key)], now, a), now, a) == Serve(JarFor(jars, now, a), now, a)
    requires Sound(Serve(JarFor(jars, now, a), now, a).0, TermsOf(a), now)
    ensures Mirrors(hash, ShardedCheck(hash, shards, now, a).0, Check(jars, now, a).0, last[a.key := TermsOf(a)], now, idle, k)
  {
    if k in jars && k != a.key && k !in shards[ShardOf(hash, |shards|, k)] {
      LaterStill(jars[k], clock, now, idle);
    }
  }

  lemma SweepMirrors(hash: Hash, shards: Shards, jars: map<string, Bucket>, last: map<string, Terms>, clock: int,
                     idle: nat, i: nat, now: int, idleFor: int)
    requires Mirror(hash, shards, jars, last, clock, idle) && (idle == 0 || idleFor >= idle)
    ensures Mirror(hash, if i < |shards| then shards[i := Sweep(shards[i], now, idleFor)] else shards, jars, last, Later(now, clock), idle)
  {
    var clock' := Later(now, clock);
    var s' := if i < |shards| then shards[i := Sweep(shards[i], now, idleFor)] else shards;
    forall k
      ensures Mirrors(hash, s', jars, last, clock', idle, k)
    {
      assert Mirrors(hash, shards, jars, last, clock, idle, k);
      var j := ShardOf(hash, |shards|, k);
      if k in jars && k !in s'[j] {
        if k in shards[j] {
          SweptFull(jars[k], last[k], clock, idle, now, idleFor);
        } else {
          LaterStill(jars[k], clock, clock', idle);
        }
      }
    }
  }

  function Later(now: int, clock: int): int { if now > clock then now else clock }

  /** The janitor takes a jar only when it is full; its clock may run behind the last request. */
  lemma SweptFull(b: Bucket, t: Terms, clock: int, idle: nat, now: int, idleFor: int)
    requires Sound(b, t, clock) && Evictable(b, now, idleFor) && (idle == 0 || idleFor >= idle)
    ensures WentFull(b, Later(now, clock), idle)
  {
    var s := now - b.lastRefill;
    if s < 0 {
      AccruedOrder(s, 0, b.refill);
      assert idle <= 0 <= Later(now, clock) - b.lastRefill && b.tokens + Accrued(0, b.refill) >= b.capacity;
    } else {
      assert idle <= s <= Later(now, clock) - b.lastRefill;
    }
  }

  lemma {:induction false} MirrorRuns(hash: Hash, shards: Shards, jars: map<string, Bucket>, last: map<string, Terms>,
                                      clock: int, allowed: Changes, idle: nat, ops: seq<Op>)
    requires Mirror(hash, shards, jars, last, clock, idle) && AllHide(allowed, idle)
    requires InOrder(ops, clock) && Obeys(allowed, idle, last, ops)
    ensures RunSharded(hash, shards, ops).1 == RunPlain(jars, ops).1
    decreases |ops|
  {
    if ops != [] {
      match ops[0]
      case CheckOp(now, a) =>
        CheckMirrors(hash, shards, jars, last, clock, allowed, idle, now, a);
        MirrorRuns(hash, ShardedCheck(hash, shards, now, a).0, Check(jars, now, a).0, last[a.key := TermsOf(a)], now, allowed, idle, ops[1..]);
      case SweepOp(i, now, idleFor) =>
        SweepMirrors(hash, shards, jars, last, clock, idle, i, now, idleFor);
        MirrorRuns(hash, if i < |shards| then shards[i := Sweep(shards[i], now, idleFor)] else shards, jars, last, Later(now, clock),
                   allowed, idle, ops[1..]);
    }
  }

  // ---- Exactly when -----------------------------------------------------------------

  function Empty(count: nat): Shards {
    seq(count, _ => map[])
  }

  /** On every run that obeys, the limiter answers as one map that never forgets. */
  ghost predicate Unobservable(hash: Hash, count: nat, allowed: Changes, idle: nat)
    requires 0 < count
  {
    forall ops, clock | InOrder(ops, clock) && Obeys(allowed, idle, map[], ops) ::
      RunSharded(hash, Empty(count), ops).1 == RunPlain(map[], ops).1
  }

  lemma FirstMirror(hash: Hash, count: nat, clock: int, idle: nat)
    requires 0 < count
    ensures Mirror(hash, Empty(count), map[], map[], clock, idle)
  {
    forall k
      ensures Mirrors(hash, Empty(count), map[], map[], clock, idle, k)
    {
    }
  }

  /** The first request of a key, leaving exactly so much. */
  function Drain(p: Terms, left: real): real {
    if left == p.capacity then p.capacity + 1.0 else p.capacity - left
  }

  lemma Drains(p: Terms, left: real, key: string)
    requires 0.0 <= left <= p.capacity
    ensures
      var a := Args(key, p.capacity, p.refill, Drain(p, left));
      Serve(NewJar(0, a), 0, a).0 == Bucket(left, 0, p.capacity, p.refill)
  {
    assert Accrued(0, p.refill) == 0.0;
  }

  /** A request, a sweep and a request, on any limiter. */
  lemma ThreeSteps(hash: Hash, count: nat, a: Args, s: nat, idle: nat, b: Args)
    requires 0 < count && a.key == b.key && idle <= s
    requires Evictable(Serve(NewJar(0, a), 0, a).0, s, idle)
    ensures
      var ops := [CheckOp(0, a), SweepOp(ShardOf(hash, count, a.key), s, idle), CheckOp(s, b)];
      && InOrder(ops, 0)
      && RunSharded(hash, Empty(count), ops).1 == [Serve(NewJar(0, a), 0, a).1, Serve(NewJar(s, b), s, b).1]
      && RunPlain(map[], ops).1 == [Serve(NewJar(0, a), 0, a).1, Serve(Serve(NewJar(0, a), 0, a).0, s, b).1]
  {
    var i := ShardOf(hash, count, a.key);
    var jar := Serve(NewJar(0, a), 0, a).0;
    var first, swept, ask := Empty(count)[i := map[a.key := jar]], Empty(count), CheckOp(s, b);
    assert map[][a.key := jar] == map[a.key := jar];
    assert Sweep(map[a.key := jar], s, idle) == map[];
    assert first[i := map[]] == swept;
    RunCheck(hash, swept, map[a.key := jar], s, b, [], s);
    assert [ask] == [ask] + [];
    var rest := [SweepOp(i, s, idle), ask];
    assert rest[1..] == [ask];
    RunCheck(hash, Empty(count), map[], 0, a, rest, 0);
    assert [CheckOp(0, a)] + rest == [CheckOp(0, a), SweepOp(i, s, idle), ask];
  }

  /** Any change of terms that does not hide can be seen: drain the jar just enough, let the janitor
      take it at its worst age, and ask on the new terms for all of it. */
  lemma ChangeShows(hash: Hash, count: nat, p: Terms, q: Terms, idle: nat, key: string) returns (a: Args, b: Args, s: nat)
    requires 0 < count && p.capacity >= 0.0 && p.refill >= 0.0 && q.refill >= 0.0 && !Hides(p, q, idle)
    ensures a.key == b.key == key && TermsOf(a) == p && TermsOf(b) == q && idle <= s
    ensures
      var ops := [CheckOp(0, a), SweepOp(ShardOf(hash, count, key), s, idle), CheckOp(s, b)];
      && InOrder(ops, 0)
      && RunSharded(hash, Empty(count), ops).1 != RunPlain(map[], ops).1
  {
    HidesIff(p, q, idle);
    var age :| idle <= age && q.capacity > Due(p, q, age);
    s := age;
    AccruedOrder(0, s, p.refill);
    assert Accrued(0, p.refill) == 0.0;
    var left := Least(p, s);
    a := Args(key, p.capacity, p.refill, Drain(p, left));
    Drains(p, left, key);
    var jar := Bucket(left, 0, p.capacity, p.refill);
    b := Args(key, q.capacity, q.refill, Telling(Due(p, q, s), q.capacity));
    TellsApart(jar, s, b);
    ThreeSteps(hash, count, a, s, idle, b);
  }

  /** The documented promise, exactly: whatever the number of shards, the hash and the sweeps, the
      janitor goes unseen on every run with these changes of plan if and only if each hides it. */
  lemma UnobservableIff(hash: Hash, count: nat, allowed: Changes, idle: nat)
    requires 0 < count
    ensures Unobservable(hash, count, allowed, idle) <==> AllHide(allowed, idle)
  {
    if AllHide(allowed, idle) {
      forall ops, clock | InOrder(ops, clock) && Obeys(allowed, idle, map[], ops)
        ensures RunSharded(hash, Empty(count), ops).1 == RunPlain(map[], ops).1
      {
        FirstMirror(hash, count, clock, idle);
        MirrorRuns(hash, Empty(count), map[], map[], clock, allowed, idle, ops);
      }
    } else {
      var p, q :| allowed(p, q) && p.capacity >= 0.0 && p.refill >= 0.0 && q.refill >= 0.0 && !Hides(p, q, idle);
      var a, b, s := ChangeShows(hash, count, p, q, idle, "");
      var ops := [CheckOp(0, a), SweepOp(ShardOf(hash, count, ""), s, idle), CheckOp(s, b)];
      ThreeObey(allowed, idle, a, ops[1], b, s);
    }
  }

  lemma ThreeObey(allowed: Changes, idle: nat, a: Args, sweep: Op, b: Args, s: nat)
    requires a.key == b.key && a.refill >= 0.0 && b.refill >= 0.0 && a.capacity >= 0.0 && allowed(TermsOf(a), TermsOf(b))
    requires sweep.SweepOp? && sweep.idleFor == idle
    ensures Obeys(allowed, idle, map[], [CheckOp(0, a), sweep, CheckOp(s, b)])
  {
    var ops := [CheckOp(0, a), sweep, CheckOp(s, b)];
    var last: map<string, Terms> := map[a.key := TermsOf(a)];
    assert map[][a.key := TermsOf(a)] == last;
    assert ops[2..][1..] == [];
    assert Obeys(allowed, idle, last, ops[2..]);
    assert ops[1..][1..] == ops[2..];
    assert Obeys(allowed, idle, last, ops[1..]);
  }

  // ---- Fixed plans ------------------------------------------------------------------

  lemma {:induction false} PlansObey(plan: Plan, last: map<string, Terms>, ops: seq<Op>)
    requires OnPlan(plan, ops)
    requires forall k | k in last :: last[k] == Terms(plan.capacity(k), plan.refill(k))
    ensures Obeys((p, q) => false, 0, last, ops)
    decreases |ops|
  {
    if ops != [] {
      assert ops[0] in ops;
      match ops[0]
      case CheckOp(_, a) => PlansObey(plan, last[a.key := TermsOf(a)], ops[1..]);
      case SweepOp(_, _, _) => PlansObey(plan, last, ops[1..]);
    }
  }

  /** For any number of shards, any hash and any interleaving of the janitor, the limiter
      answers as one map that never forgets, while every key keeps its plan. */
  lemma EvictionUnobservable(hash: Hash, count: nat, plan: Plan, clock: int, ops: seq<Op>)
    requires 0 < count && InOrder(ops, clock) && OnPlan(plan, ops)
    ensures RunSharded(hash, Empty(count), ops).1 == RunPlain(map[], ops).1
  {
    var none: Changes := (p, q) => false;
    PlansObey(plan, map[], ops);
    UnobservableIff(hash, count, none, 0);
    assert Obeys(none, 0, map[], ops);
  }
}
