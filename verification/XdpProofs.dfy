/** The kernel jar is the textbook one, in unbounded integers and without the shortcut. */
module XdpProofs {
  import opened Xdp

  const MINUTE: int := 60_000_000_000

  /** Settings that keep every intermediate value inside 64 bits. */
  predicate Fits(c: Config) {
    1 <= c.ratePps && 1 <= c.burst && Scaled(c.burst) + Scaled(60 * c.ratePps) < TWO64
  }

  // ---- The reference ----------------------------------------------------------------

  datatype Jar = Jar(tokens: int, lastNs: int)

  function Capacity(c: Config): int { Scaled(c.burst) }

  /** Pay one packet out of a balance. */
  function Pay(tokens: int, now: int): (Jar, bool) {
    if tokens < NSEC_PER_SEC then (Jar(tokens, now), true) else (Jar(tokens - NSEC_PER_SEC, now), false)
  }

  function Capped(c: Config, tokens: int): int {
    if tokens > Capacity(c) then Capacity(c) else tokens
  }

  /** Refill without limit of time or width, cap, pay one packet. */
  function Ideal(c: Config, j: Jar, now: int): (Jar, bool) {
    Pay(Capped(c, j.tokens + Gained(c, now - j.lastNs)), now)
  }

  /** The verdicts on one source's packets, given its jar. */
  function RunKernel(c: Config, jar: Bucket, times: seq<u64>): seq<bool>
    decreases |times|
  {
    if times == [] then []
    else
      var (jar', drop) := Spend(c, jar, times[0]);
      [drop] + RunKernel(c, jar', times[1..])
  }

  function RunIdeal(c: Config, jar: Jar, times: seq<u64>): seq<bool>
    decreases |times|
  {
    if times == [] then []
    else
      var (jar', drop) := Ideal(c, jar, times[0]);
      [drop] + RunIdeal(c, jar', times[1..])
  }

  /** From the first packet on, which finds no jar and is always let through. */
  function KernelVerdicts(c: Config, times: seq<u64>): seq<bool>
    requires Fits(c)
  {
    if times == [] then []
    else [false] + RunKernel(c, Bucket(Capacity(c) - NSEC_PER_SEC, times[0]), times[1..])
  }

  function IdealVerdicts(c: Config, times: seq<u64>): seq<bool> {
    if times == [] then []
    else [false] + RunIdeal(c, Jar(Capacity(c) - NSEC_PER_SEC, times[0]), times[1..])
  }

  predicate Ascending(times: seq<u64>, clock: int) {
    times == [] || (clock <= times[0] && Ascending(times[1..], times[0]))
  }

  // ---- No wrap, and the shortcut ----------------------------------------------------

  lemma WrapSmall(x: int)
    requires 0 <= x < TWO64
    ensures Wrap(x) == x
  {
  }

  lemma GainedBounds(c: Config, a: int, b: int)
    requires 0 <= a <= b
    ensures 0 <= Gained(c, a) <= Gained(c, b)
  {
  }

  lemma GainedMinute(c: Config)
    ensures Gained(c, MINUTE) == Scaled(60 * c.ratePps)
  {
  }

  /** No operation on a resident jar wraps: each is what plain arithmetic gives. */
  lemma NothingWraps(c: Config, b: Bucket, now: u64)
    requires Fits(c) && b.tokens <= Capacity(c) && b.lastNs <= now
    ensures Wrap(Scaled(c.burst)) == Capacity(c) >= NSEC_PER_SEC
    ensures Wrap(NSEC_PER_SEC * 60) == MINUTE
    ensures Wrap(now - b.lastNs) == now - b.lastNs
    ensures now - b.lastNs < MINUTE ==>
              && Wrap(Gained(c, now - b.lastNs)) == Gained(c, now - b.lastNs) >= 0
              && Wrap(b.tokens + Gained(c, now - b.lastNs)) == b.tokens + Gained(c, now - b.lastNs)
  {
    var elapsed := now - b.lastNs;
    WrapSmall(Capacity(c));
    WrapSmall(elapsed);
    if elapsed < MINUTE {
      GainedBounds(c, elapsed, MINUTE);
      GainedMinute(c);
      WrapSmall(Gained(c, elapsed));
      WrapSmall(b.tokens + Gained(c, elapsed));
    }
  }

  /** The final subtraction, which cannot wrap either. */
  function KernelPay(tokens: u64, now: u64): (Bucket, bool) {
    if tokens < NSEC_PER_SEC then (Bucket(tokens, now), true) else (Bucket(Wrap(tokens - NSEC_PER_SEC), now), false)
  }

  lemma KernelPays(tokens: u64, now: u64)
    ensures (Jar(KernelPay(tokens, now).0.tokens, now), KernelPay(tokens, now).1) == Pay(tokens, now)
    ensures KernelPay(tokens, now).0.tokens <= tokens && KernelPay(tokens, now).0.lastNs == now
  {
    if tokens >= NSEC_PER_SEC {
      WrapSmall(tokens - NSEC_PER_SEC);
    }
  }

  /** The kernel's step in plain integers: it is the ideal one, but for the shortcut. */
  lemma SpendExactly(c: Config, b: Bucket, now: u64)
    requires Fits(c) && b.tokens <= Capacity(c) && b.lastNs <= now
    ensures Spend(c, b, now).0.tokens <= Capacity(c) && Spend(c, b, now).0.lastNs == now
    ensures now - b.lastNs < MINUTE ==>
              Ideal(c, Jar(b.tokens, b.lastNs), now) == (Jar(Spend(c, b, now).0.tokens, now), Spend(c, b, now).1)
    ensures now - b.lastNs >= MINUTE ==> Spend(c, b, now) == (Bucket(Capacity(c) - NSEC_PER_SEC, now), false)
  {
    if now - b.lastNs < MINUTE {
      SpendRefills(c, b, now);
      KernelPays(Capped(c, b.tokens + Gained(c, now - b.lastNs)), now);
    } else {
      SpendShortcut(c, b, now);
      KernelPays(Capacity(c), now);
    }
  }

  /** After an idle minute the jar is simply full. */
  lemma SpendShortcut(c: Config, b: Bucket, now: u64)
    requires Fits(c) && b.tokens <= Capacity(c) && b.lastNs <= now && now - b.lastNs >= MINUTE
    ensures NSEC_PER_SEC <= Capacity(c) < TWO64 && Spend(c, b, now) == KernelPay(Capacity(c), now)
  {
    NothingWraps(c, b, now);
  }

  lemma SpendRefills(c: Config, b: Bucket, now: u64)
    requires Fits(c) && b.tokens <= Capacity(c) && b.lastNs <= now && now - b.lastNs < MINUTE
    ensures 0 <= Capped(c, b.tokens + Gained(c, now - b.lastNs)) < TWO64
    ensures Spend(c, b, now) == KernelPay(Capped(c, b.tokens + Gained(c, now - b.lastNs)), now)
  {
    NothingWraps(c, b, now);
    assert now == b.lastNs ==> Gained(c, 0) == 0;
  }

  /** An idle minute fills any jar that a minute's rate can fill. */
  lemma MinuteFills(c: Config, j: Jar, now: int)
    requires Fits(c) && c.burst <= 60 * c.ratePps && 0 <= j.tokens && now - j.lastNs >= MINUTE
    ensures Ideal(c, j, now) == (Jar(Capacity(c) - NSEC_PER_SEC, now), false)
  {
    GainedBounds(c, MINUTE, now - j.lastNs);
    GainedMinute(c);
  }

  lemma {:induction false} RunsAgree(c: Config, b: Bucket, times: seq<u64>)
    requires Fits(c) && c.burst <= 60 * c.ratePps && b.tokens <= Capacity(c) && Ascending(times, b.lastNs)
    ensures RunKernel(c, b, times) == RunIdeal(c, Jar(b.tokens, b.lastNs), times)
    decreases |times|
  {
    if times != [] {
      SpendExactly(c, b, times[0]);
      if times[0] - b.lastNs >= MINUTE {
        MinuteFills(c, Jar(b.tokens, b.lastNs), times[0]);
      }
      RunsAgree(c, Spend(c, b, times[0]).0, times[1..]);
    }
  }

  // ---- When the shortcut is sound ---------------------------------------------------

  function Repeat(t: u64, n: nat): (r: seq<u64>)
    ensures |r| == n
  {
    if n == 0 then [] else [t] + Repeat(t, n - 1)
  }

  function AllPass(n: nat): (r: seq<bool>)
    ensures |r| == n && forall i | 0 <= i < n :: !r[i]
  {
    if n == 0 then [] else [false] + AllPass(n - 1)
  }

  /** At the instant of its last packet a jar only pays. */
  lemma AtOnce(c: Config, tokens: u64, t: u64)
    requires Fits(c) && tokens <= Capacity(c)
    ensures Ideal(c, Jar(tokens, t), t) == Pay(tokens, t)
    ensures Spend(c, Bucket(tokens, t), t).0 == Bucket(Pay(tokens, t).0.tokens, t)
    ensures Spend(c, Bucket(tokens, t), t).1 == Pay(tokens, t).1
  {
    assert Gained(c, 0) == 0;
    SpendExactly(c, Bucket(tokens, t), t);
  }

  lemma RepeatCons(t: u64, n: nat, rest: seq<u64>)
    requires 0 < n
    ensures var all := Repeat(t, n) + rest; all != [] && all[0] == t && all[1..] == Repeat(t, n - 1) + rest
  {
  }

  lemma AllPassCons(n: nat, rest: seq<bool>)
    requires 0 < n
    ensures [false] + (AllPass(n - 1) + rest) == AllPass(n) + rest
  {
  }

  /** There, a jar lets through one packet for each whole token: the ideal one... */
  lemma {:induction false} IdealAtOnce(c: Config, tokens: u64, t: u64, n: nat, rest: seq<u64>)
    requires Fits(c) && Scaled(n) <= tokens <= Capacity(c)
    ensures RunIdeal(c, Jar(tokens, t), Repeat(t, n) + rest) == AllPass(n) + RunIdeal(c, Jar(tokens - Scaled(n), t), rest)
    decreases n
  {
    if n == 0 {
      assert Repeat(t, 0) + rest == rest;
    } else {
      RepeatCons(t, n, rest);
      AtOnce(c, tokens, t);
      IdealAtOnce(c, tokens - NSEC_PER_SEC, t, n - 1, rest);
      AllPassCons(n, RunIdeal(c, Jar(tokens - Scaled(n), t), rest));
    }
  }

  /** ...and the kernel's. */
  lemma {:induction false} KernelAtOnce(c: Config, tokens: u64, t: u64, n: nat, rest: seq<u64>)
    requires Fits(c) && Scaled(n) <= tokens <= Capacity(c)
    ensures RunKernel(c, Bucket(tokens, t), Repeat(t, n) + rest)
            == AllPass(n) + RunKernel(c, Bucket(tokens - Scaled(n), t), rest)
    decreases n
  {
    if n == 0 {
      assert Repeat(t, 0) + rest == rest;
    } else {
      RepeatCons(t, n, rest);
      AtOnce(c, tokens, t);
      KernelAtOnce(c, tokens - NSEC_PER_SEC, t, n - 1, rest);
      AllPassCons(n, RunKernel(c, Bucket(tokens - Scaled(n), t), rest));
    }
  }

  lemma {:induction false} RepeatAscending(t: u64, n: nat, rest: seq<u64>, clock: int)
    requires clock <= t && Ascending(rest, t)
    ensures Ascending(Repeat(t, n) + rest, clock)
    decreases n
  {
    if n == 0 {
      assert Repeat(t, 0) + rest == rest;
    } else {
      RepeatCons(t, n, rest);
      RepeatAscending(t, n - 1, rest, t);
    }
  }

  /** A minute after being drained, the kernel's jar is full... */
  lemma KernelAfterMinute(c: Config, m: nat)
    requires Fits(c) && m < c.burst
    ensures RunKernel(c, Bucket(0, 0), Repeat(MINUTE, m + 1)) == AllPass(m + 1)
  {
    assert Repeat(MINUTE, m + 1)[1..] == Repeat(MINUTE, m) + [];
    SpendExactly(c, Bucket(0, 0), MINUTE);
    KernelAtOnce(c, Capacity(c) - NSEC_PER_SEC, MINUTE, m, []);
    assert AllPass(m) + [] == AllPass(m);
  }

  /** ...and the ideal one holds a minute's worth. */
  lemma IdealAfterMinute(c: Config, m: nat)
    requires Fits(c) && m == 60 * c.ratePps < c.burst
    ensures RunIdeal(c, Jar(0, 0), Repeat(MINUTE, m + 1)) == AllPass(m) + [true]
  {
    assert Repeat(MINUTE, m + 1)[1..] == Repeat(MINUTE, m);
    RepeatSnoc(MINUTE, m - 1);
    GainedMinute(c);
    assert Ideal(c, Jar(0, 0), MINUTE) == (Jar(Scaled(m - 1), MINUTE), false);
    IdealAtOnce(c, Scaled(m - 1), MINUTE, m - 1, [MINUTE]);
    AtOnce(c, 0, MINUTE);
    assert [MINUTE][1..] == [];
    assert RunIdeal(c, Jar(0, MINUTE), [MINUTE]) == [true];
    assert AllPass(m) == [false] + AllPass(m - 1);
  }

  lemma {:induction false} RepeatSnoc(t: u64, n: nat)
    ensures Repeat(t, n + 1) == Repeat(t, n) + [t]
  {
    if n > 0 {
      RepeatSnoc(t, n - 1);
    }
  }

  /** A jar larger than a minute's rate tells the two apart: drain it, wait a minute, and
      take one packet more than the minute was worth. */
  lemma LargeJarDiffers(c: Config) returns (times: seq<u64>)
    requires Fits(c) && c.burst > 60 * c.ratePps
    ensures Ascending(times, 0) && KernelVerdicts(c, times) != IdealVerdicts(c, times)
  {
    var m, n := 60 * c.ratePps, c.burst - 1;
    var late := Repeat(MINUTE, m + 1);
    times := Repeat(0, n + 1) + late;
    assert late + [] == late;
    RepeatAscending(MINUTE, m + 1, [], 0);
    RepeatAscending(0, n + 1, late, 0);
    RepeatCons(0, n + 1, late);
    DrainedThenLate(c, m, n, late);
    FirstTwo(c, n, times, Repeat(0, n) + late);
  }

  lemma FirstTwo(c: Config, n: nat, times: seq<u64>, rest: seq<u64>)
    requires Fits(c) && c.burst == n + 1 && times != [] && times[0] == 0 && times[1..] == rest
    requires RunKernel(c, Bucket(Scaled(n), 0), rest) != RunIdeal(c, Jar(Scaled(n), 0), rest)
    ensures KernelVerdicts(c, times) != IdealVerdicts(c, times)
  {
    assert KernelVerdicts(c, times)[1..] == RunKernel(c, Bucket(Scaled(n), 0), rest);
    assert IdealVerdicts(c, times)[1..] == RunIdeal(c, Jar(Scaled(n), 0), rest);
  }

  lemma DrainedThenLate(c: Config, m: nat, n: nat, late: seq<u64>)
    requires Fits(c) && m == 60 * c.ratePps < c.burst == n + 1 && late == Repeat(MINUTE, m + 1)
    ensures RunKernel(c, Bucket(Scaled(n), 0), Repeat(0, n) + late) != RunIdeal(c, Jar(Scaled(n), 0), Repeat(0, n) + late)
  {
    KernelAtOnce(c, Scaled(n), 0, n, late);
    IdealAtOnce(c, Scaled(n), 0, n, late);
    KernelAfterMinute(c, m);
    IdealAfterMinute(c, m);
    assert AllPass(m + 1)[m] != (AllPass(m) + [true])[m];
    assert (AllPass(n) + AllPass(m + 1))[n + m] != (AllPass(n) + (AllPass(m) + [true]))[n + m];
  }

  /** The exact condition: with settings that fit in 64 bits, the kernel's verdicts are those
      of the unbounded jar on every trace iff the burst is at most a minute's rate. */
  lemma KernelIsIdealIff(c: Config)
    requires Fits(c)
    ensures (forall times | Ascending(times, 0) :: KernelVerdicts(c, times) == IdealVerdicts(c, times))
            <==> c.burst <= 60 * c.ratePps
  {
    if c.burst <= 60 * c.ratePps {
      forall times | Ascending(times, 0)
        ensures KernelVerdicts(c, times) == IdealVerdicts(c, times)
      {
        if times != [] {
          var first: u64 := Capacity(c) - NSEC_PER_SEC;
          RunsAgree(c, Bucket(first, times[0]), times[1..]);
        }
      }
    } else {
      var times := LargeJarDiffers(c);
    }
  }

  // ---- How many packets get through -------------------------------------------------

  function Passes(verdicts: seq<bool>): nat {
    if verdicts == [] then 0 else (if verdicts[0] then 0 else 1) + Passes(verdicts[1..])
  }

  /** What a jar can still let through until t2. */
  function Reach(c: Config, j: Jar, t2: int): int {
    j.tokens + Gained(c, t2 - j.lastNs)
  }

  /** A packet pays out of that, and out of a full jar from now on. */
  lemma IdealStep(c: Config, j: Jar, now: int, t2: int)
    requires 0 <= j.tokens && j.lastNs <= now <= t2
    ensures Ideal(c, j, now).0.tokens >= 0 && Ideal(c, j, now).0.lastNs == now
    ensures (if Ideal(c, j, now).1 then 0 else Scaled(1)) + Reach(c, Ideal(c, j, now).0, t2) <= Reach(c, j, t2)
    ensures (if Ideal(c, j, now).1 then 0 else Scaled(1)) + Reach(c, Ideal(c, j, now).0, t2)
            <= Capacity(c) + Gained(c, t2 - now)
  {
    GainedBounds(c, 0, now - j.lastNs);
    GainedSplit(c, now - j.lastNs, t2 - now);
  }

  lemma GainedSplit(c: Config, a: int, b: int)
    ensures Gained(c, a + b) == Gained(c, a) + Gained(c, b)
  {
  }

  lemma {:induction false} IdealBound(c: Config, j: Jar, times: seq<u64>, t2: int)
    requires 0 <= j.tokens && j.lastNs <= t2
    requires Ascending(times, j.lastNs) && forall t | t in times :: t <= t2
    ensures Scaled(Passes(RunIdeal(c, j, times))) <= Reach(c, j, t2)
    decreases |times|
  {
    if times == [] {
      GainedBounds(c, 0, t2 - j.lastNs);
    } else {
      assert times[0] in times && forall t | t in times[1..] :: t in times;
      IdealStep(c, j, times[0], t2);
      IdealBound(c, Ideal(c, j, times[0]).0, times[1..], t2);
      PassesCons(Ideal(c, j, times[0]).1, RunIdeal(c, Ideal(c, j, times[0]).0, times[1..]));
    }
  }

  lemma PassesCons(drop: bool, rest: seq<bool>)
    ensures Scaled(Passes([drop] + rest)) == (if drop then 0 else Scaled(1)) + Scaled(Passes(rest))
  {
    assert ([drop] + rest)[1..] == rest;
  }

  lemma IdealStepFrom(c: Config, j: Jar, t1: int, now: int, t2: int)
    requires 0 <= j.tokens && j.lastNs <= t1 <= now <= t2
    ensures Ideal(c, j, now).0.tokens >= 0 && Ideal(c, j, now).0.lastNs == now
    ensures (if Ideal(c, j, now).1 then 0 else Scaled(1)) + Reach(c, Ideal(c, j, now).0, t2)
            <= Capacity(c) + Gained(c, t2 - t1)
  {
    IdealStep(c, j, now, t2);
    GainedBounds(c, t2 - now, t2 - t1);
  }

  lemma FromFullJar(c: Config, j: Jar, times: seq<u64>, t1: int, t2: int)
    requires 0 <= j.tokens && j.lastNs <= t1 <= t2 && Ascending(times, t1) && forall t | t in times :: t <= t2
    ensures Scaled(Passes(RunIdeal(c, j, times))) <= Capacity(c) + Gained(c, t2 - t1)
  {
    if times == [] {
      GainedBounds(c, 0, t2 - t1);
    } else {
      var now := times[0];
      assert now in times && forall t | t in times[1..] :: t in times;
      IdealStepFrom(c, j, t1, now, t2);
      var (j', drop) := Ideal(c, j, now);
      IdealBound(c, j', times[1..], t2);
      PassesCons(drop, RunIdeal(c, j', times[1..]));
    }
  }

  /** Over any interval, one resident source gets at most a burst plus the rate times the
      interval through, from whatever state its jar is in. */
  lemma PacketBound(c: Config, b: Bucket, times: seq<u64>, t1: int, t2: int)
    requires Fits(c) && c.burst <= 60 * c.ratePps && b.tokens <= Capacity(c)
    requires b.lastNs <= t1 <= t2 && Ascending(times, t1) && forall t | t in times :: t <= t2
    ensures Scaled(Passes(RunKernel(c, b, times))) <= Capacity(c) + Gained(c, t2 - t1)
  {
    assert Ascending(times, b.lastNs);
    RunsAgree(c, b, times);
    FromFullJar(c, Jar(b.tokens, b.lastNs), times, t1, t2);
  }
}
