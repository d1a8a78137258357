/** The leaky bucket and the sliding window log (internal/limiter/windows.go). */
module Windows {
  import opened TokenBucket

  function Max(a: real, b: real): real { if a >= b then a else b }

  // ---- Leaky bucket -----------------------------------------------------------------

  datatype Leaky = Leaky(level: real, lastLeak: int)

  /** One pour into one bucket: drain for the time since, then see whether it fits. */
  function Pour(b: Leaky, now: int, a: Args): (Leaky, Decision) {
    var drained := Max(b.level - Accrued(now - b.lastLeak, a.refill), 0.0);
    var allowed := drained + Price(a.cost) <= a.capacity;
    var level := if allowed then drained + Price(a.cost) else drained;
    var room := (a.capacity - level).Floor;
    (Leaky(level, now), Decision(allowed, if room < 0 then 0 else room))
  }

  function LeakyFor(buckets: map<string, Leaky>, now: int, a: Args): Leaky {
    if a.key in buckets then buckets[a.key] else Leaky(0.0, now)
  }

  function PourInto(buckets: map<string, Leaky>, now: int, a: Args): (map<string, Leaky>, Decision) {
    var (b, d) := Pour(LeakyFor(buckets, now, a), now, a);
    (buckets[a.key := b], d)
  }

  class LeakyBucket {
    var buckets: map<string, Leaky>

    constructor ()
      ensures buckets == map[]
    {
      buckets := map[];
    }

    method Check(now: int, args: Args) returns (d: Decision)
      modifies this
      ensures (buckets, d) == PourInto(old(buckets), now, args)
    {
      var cost := args.cost;
      if cost == 0.0 {
        cost := 1.0;
      }
      var b := Leaky(0.0, now);
      if args.key in buckets {
        b := buckets[args.key];
      }
      var elapsed := now - b.lastLeak;
      b := Leaky(Max(b.level - Accrued(elapsed, args.refill), 0.0), now);
      var allowed := b.level + cost <= args.capacity;
      if allowed {
        b := b.(level := b.level + cost);
      }
      buckets := buckets[args.key := b];
      var room := (args.capacity - b.level).Floor;
      d := Decision(allowed, if room < 0 then 0 else room);
    }
  }

  // ---- Sliding window log -----------------------------------------------------------

  /** The stamps still inside the window, in order. */
  function After(stamps: seq<int>, start: int): (r: seq<int>) {
    if stamps == [] then []
    else After(stamps[..|stamps| - 1], start) + if stamps[|stamps| - 1] > start then [stamps[|stamps| - 1]] else []
  }

  /** One request against one log: forget the old stamps, admit while there is room. */
  function Stamp(stamps: seq<int>, now: int, limit: real, window: int): (seq<int>, bool) {
    var recent := After(stamps, now - window);
    if |recent| as real < limit then (recent + [now], true) else (recent, false)
  }

  /** What is left of the limit. */
  function Room(limit: real, used: nat): int {
    Max(limit - used as real, 0.0).Floor
  }

  function StampsOf(logs: map<string, seq<int>>, key: string): seq<int> {
    if key in logs then logs[key] else []
  }

  function StampInto(logs: map<string, seq<int>>, key: string, now: int, limit: real,
                     window: int): (map<string, seq<int>>, Decision) {
    var (recent, allowed) := Stamp(StampsOf(logs, key), now, limit, window);
    (logs[key := recent], Decision(allowed, Room(limit, |recent|)))
  }

  class SlidingWindowLog {
    var logs: map<string, seq<int>>

    constructor ()
      ensures logs == map[]
    {
      logs := map[];
    }

    method Check(now: int, key: string, limit: real, window: int) returns (d: Decision)
      modifies this
      ensures (logs, d) == StampInto(old(logs), key, now, limit, window)
    {
      var stamps := StampsOf(logs, key);
      var recent := Recent(stamps, now - window);
      var allowed := |recent| as real < limit;
      if allowed {
        recent := recent + [now];
      }
      logs := logs[key := recent];
      d := Decision(allowed, Room(limit, |recent|));
    }
  }

  method Recent(stamps: seq<int>, start: int) returns (recent: seq<int>)
    ensures recent == After(stamps, start)
  {
    var buf := new int[|stamps|](i requires 0 <= i < |stamps| => stamps[i]);
    assert buf[..] == stamps;
    var n := KeepRecent(buf, start);
    recent := buf[..n];
  }

  /** The filter in place: survivors move to the front of the same buffer. */
  method KeepRecent(buf: array<int>, start: int) returns (n: nat)
    modifies buf
    ensures n <= buf.Length && buf[..n] == After(old(buf[..]), start)
  {
    n := 0;
    for i := 0 to buf.Length
      invariant n <= i
      invariant buf[..n] == After(old(buf[..i]), start)
      invariant buf[i..] == old(buf[i..])
    {
      var ts := buf[i];
      assert ts == old(buf[i]) && old(buf[..i + 1])[..i] == old(buf[..i]);
      if ts > start {
        buf[n] := ts;
        n := n + 1;
        assert buf[..n] == buf[..n - 1] + [ts];
      }
    }
    assert old(buf[..buf.Length]) == old(buf[..]);
  }
}
