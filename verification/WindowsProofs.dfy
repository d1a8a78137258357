/** The leaky bucket is the token bucket upside down; the log never admits too many. */
module WindowsProofs {
  import opened TokenBucket
  import opened TokenBucketProofs
  import opened Windows

  // ---- Duality ----------------------------------------------------------------------

  /** The same trace on a leaky bucket; the janitor is none of its business. */
  function RunLeaky(buckets: map<string, Leaky>, ops: seq<Op>): (map<string, Leaky>, seq<Decision>)
    decreases |ops|
  {
    if ops == [] then (buckets, [])
    else
      match ops[0]
      case CheckOp(now, a) =>
        var (b, d) := PourInto(buckets, now, a);
        var (b', ds) := RunLeaky(b, ops[1..]);
        (b', [d] + ds)
      case SweepOp(_, _, _) => RunLeaky(buckets, ops[1..])
  }

  /** Level and balance are complements, key by key. */
  ghost predicate Opposite(plan: Plan, jars: map<string, Bucket>, buckets: map<string, Leaky>, k: string) {
    && (k in jars <==> k in buckets)
    && (k in jars ==> buckets[k].level == plan.capacity(k) - jars[k].tokens)
  }

  ghost predicate Dual(plan: Plan, jars: map<string, Bucket>, buckets: map<string, Leaky>, clock: int, k: string) {
    && Opposite(plan, jars, buckets, k)
    && (k in jars ==> buckets[k].lastLeak == jars[k].lastRefill <= clock && 0.0 <= jars[k].tokens)
  }

  ghost predicate AllDual(plan: Plan, jars: map<string, Bucket>, buckets: map<string, Leaky>, clock: int) {
    forall k :: Dual(plan, jars, buckets, clock, k)
  }

  lemma PourIsServe(b: Bucket, l: Leaky, now: int, a: Args)
    requires l.level == a.capacity - b.tokens && l.lastLeak == b.lastRefill <= now
    requires 0.0 <= b.tokens && 0.0 <= a.capacity && 0.0 <= a.refill
    ensures
      var (b', d) := Serve(b, now, a);
      var (l', e) := Pour(l, now, a);
      d == e && l'.level == a.capacity - b'.tokens && l'.lastLeak == b'.lastRefill == now && 0.0 <= b'.tokens
  {
    Accrues(b.lastRefill, now, b.lastRefill, a.refill);
    assert Accrued(0, a.refill) == 0.0;
  }

  lemma {:induction false} DualRuns(plan: Plan, jars: map<string, Bucket>, buckets: map<string, Leaky>, clock: int,
                                    ops: seq<Op>)
    requires AllDual(plan, jars, buckets, clock)
    requires InOrder(ops, clock) && OnPlan(plan, ops) && forall k :: plan.capacity(k) >= 0.0
    ensures RunLeaky(buckets, ops).1 == RunPlain(jars, ops).1
    ensures forall k :: Opposite(plan, RunPlain(jars, ops).0, RunLeaky(buckets, ops).0, k)
    decreases |ops|
  {
    if ops == [] {
      forall k
        ensures Opposite(plan, jars, buckets, k)
      {
        assert Dual(plan, jars, buckets, clock, k);
      }
    } else {
      match ops[0]
      case CheckOp(now, a) =>
        assert ops[0] in ops && Dual(plan, jars, buckets, clock, a.key);
        PourIsServe(JarFor(jars, now, a), LeakyFor(buckets, now, a), now, a);
        forall k
          ensures Dual(plan, Check(jars, now, a).0, PourInto(buckets, now, a).0, now, k)
        {
          assert Dual(plan, jars, buckets, clock, k);
        }
        DualRuns(plan, Check(jars, now, a).0, PourInto(buckets, now, a).0, now, ops[1..]);
      case SweepOp(_, now, _) =>
        var clock' := if now > clock then now else clock;
        forall k
          ensures Dual(plan, jars, buckets, clock', k)
        {
          assert Dual(plan, jars, buckets, clock, k);
        }
        DualRuns(plan, jars, buckets, clock', ops[1..]);
    }
  }

  /** On every trace with fixed plans and a clock that does not go back, the two limiters
      give the same answers, and level and tokens always add up to the capacity. */
  lemma Duality(plan: Plan, clock: int, ops: seq<Op>)
    requires InOrder(ops, clock) && OnPlan(plan, ops) && forall k :: plan.capacity(k) >= 0.0
    ensures RunLeaky(map[], ops).1 == RunPlain(map[], ops).1
    ensures
      forall k | k in RunPlain(map[], ops).0 ::
        && k in RunLeaky(map[], ops).0
        && RunLeaky(map[], ops).0[k].level + RunPlain(map[], ops).0[k].tokens == plan.capacity(k)
  {
    forall k
      ensures Dual(plan, map[], map[], clock, k)
    {
    }
    DualRuns(plan, map[], map[], clock, ops);
    forall k | k in RunPlain(map[], ops).0
      ensures k in RunLeaky(map[], ops).0
      ensures RunLeaky(map[], ops).0[k].level + RunPlain(map[], ops).0[k].tokens == plan.capacity(k)
    {
      assert Opposite(plan, RunPlain(map[], ops).0, RunLeaky(map[], ops).0, k);
    }
  }

  // ---- The sliding log --------------------------------------------------------------

  /** The instants of the admitted requests among those made at `times`, and the log left. */
  function RunLog(stamps: seq<int>, times: seq<int>, limit: real, window: int): (admitted: seq<int>)
    decreases |times|
  {
    if times == [] then []
    else
      var (recent, ok) := Stamp(stamps, times[0], limit, window);
      (if ok then [times[0]] else []) + RunLog(recent, times[1..], limit, window)
  }

  predicate Ascending(times: seq<int>, clock: int) {
    times == [] || (clock <= times[0] && Ascending(times[1..], times[0]))
  }

  /** How many of the stamps fall in (t - window, t]. */
  function InWindow(stamps: seq<int>, t: int, window: int): nat {
    if stamps == [] then 0
    else InWindow(stamps[..|stamps| - 1], t, window)
         + if t - window < stamps[|stamps| - 1] <= t then 1 else 0
  }

  /** The most requests a limit can mean: a fractional limit admits one more. */
  function Most(limit: real): nat {
    if limit <= 0.0 then 0 else -((-limit).Floor)
  }

  lemma {:induction false} WindowWithinRecent(stamps: seq<int>, t: int, window: int, start: int)
    requires start <= t - window
    ensures InWindow(stamps, t, window) <= |After(stamps, start)|
    decreases |stamps|
  {
    if stamps != [] {
      WindowWithinRecent(stamps[..|stamps| - 1], t, window, start);
    }
  }

  /** What a later cut-off keeps does not depend on an earlier one. */
  lemma {:induction false} AfterTwice(stamps: seq<int>, early: int, late: int)
    requires early <= late
    ensures After(After(stamps, early), late) == After(stamps, late)
    decreases |stamps|
  {
    if stamps != [] {
      var n := |stamps| - 1;
      AfterTwice(stamps[..n], early, late);
      if stamps[n] > early {
        AfterSnoc(After(stamps[..n], early), stamps[n], late);
      } else {
        assert After(stamps, early) == After(stamps[..n], early);
      }
    }
  }

  lemma AfterSnoc(stamps: seq<int>, x: int, start: int)
    ensures After(stamps + [x], start) == After(stamps, start) + if x > start then [x] else []
  {
    assert (stamps + [x])[..|stamps|] == stamps;
  }

  lemma WindowSnoc(stamps: seq<int>, x: int, t: int, window: int)
    ensures InWindow(stamps + [x], t, window) == InWindow(stamps, t, window) + if t - window < x <= t then 1 else 0
  {
    assert (stamps + [x])[..|stamps|] == stamps;
  }

  /** The log holds the recent part of everything admitted so far. */
  ghost predicate Tracks(history: seq<int>, stamps: seq<int>, start: int) {
    forall late | start <= late :: After(stamps, late) == After(history, late)
  }

  ghost predicate Bounded(history: seq<int>, most: nat, window: int) {
    forall t :: InWindow(history, t, window) <= most
  }

  lemma StampTracks(history: seq<int>, stamps: seq<int>, clock: int, now: int, limit: real, window: int)
    requires Tracks(history, stamps, clock - window) && clock <= now
    ensures
      var (recent, ok) := Stamp(stamps, now, limit, window);
      Tracks(if ok then history + [now] else history, recent, now - window)
  {
    var recent := After(stamps, now - window);
    forall late | now - window <= late
      ensures After(recent, late) == After(history, late)
      ensures After(recent + [now], late) == After(history + [now], late)
    {
      AfterTwice(stamps, now - window, late);
      AfterSnoc(recent, now, late);
      AfterSnoc(history, now, late);
    }
  }

  /** One request keeps the history within the limit, in every window there is. */
  lemma StampBounded(history: seq<int>, stamps: seq<int>, clock: int, now: int, limit: real, window: int)
    requires Tracks(history, stamps, clock - window) && clock <= now && Bounded(history, Most(limit), window)
    requires Stamp(stamps, now, limit, window).1
    ensures Bounded(history + [now], Most(limit), window)
  {
    var recent := After(stamps, now - window);
    assert recent == After(history, now - window) && |recent| + 1 <= Most(limit);
    forall t
      ensures InWindow(history + [now], t, window) <= Most(limit)
    {
      WindowSnoc(history, now, t, window);
      if t - window < now <= t {
        WindowWithinRecent(history, t, window, now - window);
      }
    }
  }

  lemma {:induction false} RunBounded(history: seq<int>, stamps: seq<int>, clock: int, times: seq<int>, limit: real,
                                      window: int)
    requires Tracks(history, stamps, clock - window) && Bounded(history, Most(limit), window)
    requires Ascending(times, clock)
    ensures Bounded(history + RunLog(stamps, times, limit, window), Most(limit), window)
    decreases |times|
  {
    if times == [] {
      assert history + [] == history;
    } else {
      var (recent, ok) := Stamp(stamps, times[0], limit, window);
      StampTracks(history, stamps, clock, times[0], limit, window);
      var rest := RunLog(recent, times[1..], limit, window);
      if ok {
        StampBounded(history, stamps, clock, times[0], limit, window);
        RunBounded(history + [times[0]], recent, times[0], times[1..], limit, window);
        assert history + ([times[0]] + rest) == history + [times[0]] + rest;
      } else {
        RunBounded(history, recent, times[0], times[1..], limit, window);
        assert [] + rest == rest;
      }
    }
  }

  /** However requests arrive, no window (t - window, t] ever holds more admissions than the
      limit, which for an integer limit is the limit itself. */
  lemma LogAdmitsAtMostLimit(times: seq<int>, clock: int, limit: real, window: int, t: int)
    requires Ascending(times, clock)
    ensures InWindow(RunLog([], times, limit, window), t, window) <= Most(limit)
    ensures limit >= 0.0 && limit == limit.Floor as real ==> Most(limit) == limit.Floor
  {
    RunBounded([], [], clock, times, limit, window);
    assert [] + RunLog([], times, limit, window) == RunLog([], times, limit, window);
  }

  // ---- When the log admits ----------------------------------------------------------

  predicate NotAfter(stamps: seq<int>, now: int) {
    forall x | x in stamps :: x <= now
  }

  /** Of stamps that lie in the past, those after the window's start are those in the window. */
  lemma {:induction false} KeptIsInWindow(stamps: seq<int>, now: int, window: int)
    requires NotAfter(stamps, now)
    ensures |After(stamps, now - window)| == InWindow(stamps, now, window)
    decreases |stamps|
  {
    if stamps != [] {
      var early := stamps[..|stamps| - 1];
      assert stamps[|stamps| - 1] in stamps && forall x | x in early :: x in stamps;
      KeptIsInWindow(early, now, window);
    }
  }

  /** The request made at t goes first. */
  function First(stamps: seq<int>, t: int, limit: real, window: int): seq<int> {
    if Stamp(stamps, t, limit, window).1 then [t] else []
  }

  lemma RunLogCons(stamps: seq<int>, t: int, times: seq<int>, limit: real, window: int)
    ensures RunLog(stamps, [t] + times, limit, window)
            == First(stamps, t, limit, window) + RunLog(Stamp(stamps, t, limit, window).0, times, limit, window)
  {
    assert ([t] + times)[1..] == times;
  }

  lemma FirstTracks(history: seq<int>, stamps: seq<int>, clock: int, t: int, limit: real, window: int)
    requires Tracks(history, stamps, clock - window) && NotAfter(history, clock) && clock <= t
    ensures
      var next := history + First(stamps, t, limit, window);
      Tracks(next, Stamp(stamps, t, limit, window).0, t - window) && NotAfter(next, t)
  {
    StampTracks(history, stamps, clock, t, limit, window);
    assert history + [] == history;
  }

  // ---- Many clients -----------------------------------------------------------------

  datatype Ask = Ask(key: string, now: int)

  /** When a client's requests came, and which of them one limiter for all the clients admitted. */
  function TimesOf(asks: seq<Ask>, key: string): seq<int> {
    if asks == [] then []
    else TimesOf(asks[..|asks| - 1], key) + if asks[|asks| - 1].key == key then [asks[|asks| - 1].now] else []
  }

  function LogsAfter(asks: seq<Ask>, limit: real, window: int): map<string, seq<int>> {
    if asks == [] then map[]
    else
      var a := asks[|asks| - 1];
      StampInto(LogsAfter(asks[..|asks| - 1], limit, window), a.key, a.now, limit, window).0
  }

  predicate Admits(asks: seq<Ask>, a: Ask, limit: real, window: int) {
    Stamp(StampsOf(LogsAfter(asks, limit, window), a.key), a.now, limit, window).1
  }

  function AdmittedOf(asks: seq<Ask>, key: string, limit: real, window: int): seq<int> {
    if asks == [] then []
    else
      var early, a := asks[..|asks| - 1], asks[|asks| - 1];
      AdmittedOf(early, key, limit, window) + if a.key == key && Admits(early, a, limit, window) then [a.now] else []
  }

  predicate InOrderOf(asks: seq<Ask>) {
    forall i, j | 0 <= i < j < |asks| && asks[i].key == asks[j].key :: asks[i].now <= asks[j].now
  }

  /** A client's log is what is recent of what it was admitted. */
  lemma {:induction false} LogIsRecent(asks: seq<Ask>, key: string, clock: int, limit: real, window: int)
    requires InOrderOf(asks) && forall a | a in asks && a.key == key :: a.now <= clock
    ensures Tracks(AdmittedOf(asks, key, limit, window), StampsOf(LogsAfter(asks, limit, window), key), clock - window)
    ensures NotAfter(AdmittedOf(asks, key, limit, window), clock)
    decreases |asks|
  {
    if asks != [] {
      var early, a := asks[..|asks| - 1], asks[|asks| - 1];
      assert asks == early + [a] && forall b | b in early :: b in asks;
      assert a in asks && InOrderOf(early);
      if a.key != key {
        LogIsRecent(early, key, clock, limit, window);
        assert AdmittedOf(early, key, limit, window) + [] == AdmittedOf(early, key, limit, window);
      } else {
        forall b | b in early && b.key == key
          ensures b.now <= a.now
        {
          var i :| 0 <= i < |early| && early[i] == b;
          assert asks[i] == b && asks[|asks| - 1] == a;
        }
        LogIsRecent(early, key, a.now, limit, window);
        FirstTracks(AdmittedOf(early, key, limit, window), StampsOf(LogsAfter(early, limit, window), key), a.now, a.now,
                    limit, window);
        assert AdmittedOf(asks, key, limit, window)
            == AdmittedOf(early, key, limit, window)
               + First(StampsOf(LogsAfter(early, limit, window), key), a.now, limit, window);
      }
    }
  }

  lemma OrderSnoc(asks: seq<Ask>, a: Ask)
    requires InOrderOf(asks + [a])
    ensures InOrderOf(asks) && forall b | b in asks && b.key == a.key :: b.now <= a.now
  {
    var all := asks + [a];
    assert all[|asks|] == a && forall i | 0 <= i < |asks| :: all[i] == asks[i];
  }

  lemma Counted(history: seq<int>, stamps: seq<int>, now: int, limit: real, window: int)
    requires Tracks(history, stamps, now - window) && NotAfter(history, now)
    ensures Stamp(stamps, now, limit, window).1 <==> InWindow(history, now, window) as real < limit
  {
    KeptIsInWindow(history, now, window);
  }

  /** With any clients in any interleaving, the answer to one more request is yes exactly when fewer
      than the limit of its client's own were admitted in the window that ends with it. */
  lemma ClientAdmittedIff(asks: seq<Ask>, a: Ask, limit: real, window: int)
    requires InOrderOf(asks + [a])
    ensures StampInto(LogsAfter(asks, limit, window), a.key, a.now, limit, window).1.allowed
            <==> InWindow(AdmittedOf(asks, a.key, limit, window), a.now, window) as real < limit
  {
    OrderSnoc(asks, a);
    LogIsRecent(asks, a.key, a.now, limit, window);
    Counted(AdmittedOf(asks, a.key, limit, window), StampsOf(LogsAfter(asks, limit, window), a.key), a.now, limit, window);
    AnswerIs(LogsAfter(asks, limit, window), a, limit, window);
  }

  lemma AnswerIs(logs: map<string, seq<int>>, a: Ask, limit: real, window: int)
    ensures StampInto(logs, a.key, a.now, limit, window).1.allowed
            <==> Stamp(StampsOf(logs, a.key), a.now, limit, window).1
  {
  }

  function Copies(now: int, n: nat): seq<int> {
    if n == 0 then [] else [now] + Copies(now, n - 1)
  }

  lemma {:induction false} AllKept(stamps: seq<int>, start: int)
    requires forall x | x in stamps :: x > start
    ensures After(stamps, start) == stamps
    decreases |stamps|
  {
    if stamps != [] {
      var n := |stamps| - 1;
      var early := stamps[..n];
      assert stamps[n] in stamps && stamps == early + [stamps[n]] && forall x | x in early :: x in stamps;
      AllKept(early, start);
    }
  }

  lemma MostIs(n: nat, limit: real)
    ensures n as real < limit <==> n < Most(limit)
  {
  }

  /** What is left, in whole requests, of which a fraction of one may be had too. */
  lemma RoomWithin(limit: real, used: nat)
    requires limit >= 0.0
    ensures 0 <= Room(limit, used) && (used <= Most(limit) ==> Room(limit, used) <= Most(limit) - used)
    ensures limit == limit.Floor as real ==> Room(limit, used) == if used <= Most(limit) then Most(limit) - used else 0
  {
    RoomIs(limit, used, limit.Floor);
  }

  lemma RoomIs(limit: real, used: nat, whole: int)
    requires whole as real <= limit < (whole + 1) as real
    ensures Room(limit, used) == if used <= whole then whole - used else 0
  {
    if used <= whole {
      FloorIs(limit - used as real, whole - used);
    } else {
      assert limit - used as real <= 0.0;
    }
  }

  lemma FloorIs(x: real, n: int)
    requires n as real <= x < n as real + 1.0
    ensures x.Floor == n
  {
  }

  function Least(a: int, b: int): int {
    if a <= b then a else b
  }

  lemma AdmitHere(stamps: seq<int>, now: int, limit: real, window: int)
    requires window > 0 && forall x | x in stamps :: x > now - window
    ensures Stamp(stamps, now, limit, window)
            == if |stamps| < Most(limit) then (stamps + [now], true) else (stamps, false)
  {
    AllKept(stamps, now - window);
    MostIs(|stamps|, limit);
  }

  /** Requests that follow at the same instant fill what is left of the limit, and no more. */
  lemma {:induction false} FillsUp(stamps: seq<int>, now: int, n: nat, limit: real, window: int)
    requires window > 0 && forall x | x in stamps :: x > now - window
    ensures |RunLog(stamps, Copies(now, n), limit, window)|
            == if |stamps| >= Most(limit) then 0 else Least(n, Most(limit) - |stamps|)
    decreases n
  {
    if n > 0 {
      AdmitHere(stamps, now, limit, window);
      RunLogCons(stamps, now, Copies(now, n - 1), limit, window);
      FillsUp(Stamp(stamps, now, limit, window).0, now, n - 1, limit, window);
    }
  }

  lemma {:induction false} KeptAreRecent(stamps: seq<int>, start: int)
    ensures forall x | x in After(stamps, start) :: x > start
    decreases |stamps|
  {
    if stamps != [] {
      KeptAreRecent(stamps[..|stamps| - 1], start);
    }
  }

  /** What is reported as remaining can be had at once; of a whole limit, that and nothing more. */
  lemma RemainingCanBeHad(logs: map<string, seq<int>>, key: string, now: int, limit: real, window: int, n: nat)
    requires window > 0 && limit >= 0.0
    ensures
      var (logs', d) := StampInto(logs, key, now, limit, window);
      var had := |RunLog(StampsOf(logs', key), Copies(now, n), limit, window)|;
      && (n <= d.remaining ==> had == n)
      && (limit == limit.Floor as real && n > d.remaining ==> had == d.remaining)
  {
    var stamps := StampsOf(logs, key);
    var recent := Stamp(stamps, now, limit, window).0;
    RemainingIs(logs, key, now, limit, window);
    KeptAreRecent(stamps, now - window);
    FillsUp(recent, now, n, limit, window);
    RoomWithin(limit, |recent|);
    StampWithin(stamps, now, limit, window);
  }

  lemma RemainingIs(logs: map<string, seq<int>>, key: string, now: int, limit: real, window: int)
    ensures
      var (logs', d) := StampInto(logs, key, now, limit, window);
      var recent := Stamp(StampsOf(logs, key), now, limit, window).0;
      StampsOf(logs', key) == recent && d.remaining == Room(limit, |recent|)
  {
  }

  lemma StampWithin(stamps: seq<int>, now: int, limit: real, window: int)
    ensures Stamp(stamps, now, limit, window).1 ==> |Stamp(stamps, now, limit, window).0| <= Most(limit)
  {
    MostIs(|After(stamps, now - window)|, limit);
  }
}
