/** The monthly plan meter, in process (internal/limiter/monthlyquota.go) and in Redis
    (internal/limiter/redis.go).  Months are names; usage is an exact real. */
module MonthlyQuota {
  import opened Wrappers

  datatype Meter = Meter(month: string, used: real)

  datatype Charge = Charge(key: string, month: string, quota: real, cost: real, now: int)

  datatype Verdict = Verdict(allowed: bool, used: real, remaining: real)

  /** A charge that names no cost costs one unit. */
  function Price(cost: real): real {
    if cost == 0.0 then 1.0 else cost
  }

  function Verdicted(allowed: bool, used: real, quota: real): Verdict {
    Verdict(allowed, used, if quota - used >= 0.0 then quota - used else 0.0)
  }

  /** A new month is a fresh meter. */
  function UsedBy(meters: map<string, Meter>, key: string, month: string): real {
    if key in meters && meters[key].month == month then meters[key].used else 0.0
  }

  /** Check and charge; a refusal charges nothing. */
  function Charged(meters: map<string, Meter>, c: Charge): (map<string, Meter>, Verdict) {
    var used := UsedBy(meters, c.key, c.month);
    var allowed := used + Price(c.cost) <= c.quota;
    var now := if allowed then used + Price(c.cost) else used;
    (meters[c.key := Meter(c.month, now)], Verdicted(allowed, now, c.quota))
  }

  class Meters {
    var meters: map<string, Meter>

    constructor ()
      ensures meters == map[]
    {
      meters := map[];
    }

    method Check(c: Charge) returns (v: Verdict)
      modifies this
      ensures (meters, v) == Charged(old(meters), c)
    {
      var cost := c.cost;
      if cost == 0.0 {
        cost := 1.0;
      }
      if c.key !in meters || meters[c.key].month != c.month {
        meters := meters[c.key := Meter(c.month, 0.0)];
      }
      var m := meters[c.key];
      var allowed := m.used + cost <= c.quota;
      if allowed {
        m := m.(used := m.used + cost);
      }
      meters := meters[c.key := m];
      assert meters == old(meters)[c.key := m];
      v := Verdicted(allowed, m.used, c.quota);
    }
  }

  // ---- In Redis ---------------------------------------------------------------------

  const MONTH_TTL_MS := 70 * 24 * 60 * 60 * 1000

  /** One month of one key, until it expires.  The script joins the two names by a colon. */
  datatype Counter = Counter(used: real, expires: int)

  type Store = map<(string, string), Counter>

  predicate Live(store: Store, k: (string, string), now: int) {
    k in store && now < store[k].expires
  }

  /** The script: one step, whoever runs it. */
  function Evaluated(store: Store, c: Charge): (Store, Verdict) {
    var k := (c.key, c.month);
    var used := if Live(store, k, c.now) then store[k].used else 0.0;
    if used + Price(c.cost) <= c.quota then
      (store[k := Counter(used + Price(c.cost), c.now + MONTH_TTL_MS)], Verdicted(true, used + Price(c.cost), c.quota))
    else
      (if Live(store, k, c.now) then store[k := Counter(used, c.now + MONTH_TTL_MS)] else store - {k},
       Verdicted(false, used, c.quota))
  }

  class Redis {
    var store: Store

    constructor ()
      ensures store == map[]
    {
      store := map[];
    }

    /** GET: an expired key is not there, and is dropped when it is asked for. */
    method Fetch(k: (string, string), now: int) returns (used: Option<real>)
      modifies this
      ensures store == if Live(old(store), k, now) then old(store) else old(store) - {k}
      ensures used == if Live(old(store), k, now) then Some(old(store)[k].used) else None
    {
      if k in store && now < store[k].expires {
        return Some(store[k].used);
      }
      store := store - {k};
      return None;
    }

    method Eval(c: Charge) returns (v: Verdict)
      modifies this
      ensures (store, v) == Evaluated(old(store), c)
    {
      var k, cost := (c.key, c.month), c.cost;
      if cost == 0.0 {
        cost := 1.0;
      }
      var got := Fetch(k, c.now);
      var used := if got.Some? then got.value else 0.0;
      var allowed := false;
      if used + cost <= c.quota {
        used := used + cost;
        allowed := true;
        store := store[k := Counter(used, c.now + MONTH_TTL_MS)];
        assert store == old(store)[k := Counter(used, c.now + MONTH_TTL_MS)];
      } else if k in store {
        store := store[k := store[k].(expires := c.now + MONTH_TTL_MS)];
      }
      v := Verdicted(allowed, used, c.quota);
    }
  }
}
