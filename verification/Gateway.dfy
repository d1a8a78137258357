/** The admission decision (internal/gateway/gateway.go): who, the ban, the plan, the lane, the
    jar, and what to tell the client.  One clock serves every part. */
module Gateway {
  import opened Wrappers
  import opened Policy
  import Automations
  import MonthlyQuota
  import TokenBucket

  /** The behavioural lane: how much a client's burst and refill are scaled. */
  datatype Lane = Lane(burstMult: real, refillMult: real)

  /** A request, the instant it is decided, its lane if a classifier is attached, and which of the
      two stores cannot be reached. */
  datatype Request = Request(apiKey: string, ip: string, route: string, now: int, lane: Option<Lane>, meterDown: bool, jarDown: bool)

  datatype Decision = Decision(
    allowed: bool,
    reason: string,
    remaining: int,
    limit: real,
    tierLimit: real,
    cost: real,
    retryAfterMs: int,
    monthly: Option<MonthlyQuota.Verdict>,
    failed: bool)

  datatype World = World(
    book: Book,
    jars: map<string, TokenBucket.Bucket>,
    meters: map<string, MonthlyQuota.Meter>,
    pilot: Automations.Pilot)

  function Max(a: real, b: real): real {
    if a >= b then a else b
  }

  /** Half away from zero. */
  function Round(x: real): real {
    if x >= 0.0 then (x + 0.5).Floor as real else -((0.5 - x).Floor as real)
  }

  function Ceil(x: real): int {
    -((-x).Floor)
  }

  function Scaled(x: real, factor: real): real {
    x * factor
  }

  /** What is enforced for this client: never less than one request's worth in a lane. */
  function LaneCapacity(plan: Plan, lane: Option<Lane>): real {
    if lane.Some? then Max(plan.cost, Round(Scaled(plan.capacity, lane.value.burstMult))) else plan.capacity
  }

  function LaneRefill(plan: Plan, lane: Option<Lane>): real {
    if lane.Some? then Scaled(plan.refillRatePerMs, lane.value.refillMult) else plan.refillRatePerMs
  }

  /** How long the jar needs for the shortfall, as reported. */
  function RetryAfter(reason: string, cost: real, remaining: int, refill: real): int {
    if reason == "burst" && refill > 0.0 then Ceil(Max(cost - remaining as real, 0.0) / refill) else 0
  }

  function FailOpen(limit: real, tierLimit: real, cost: real): Decision {
    Decision(true, "", 0, limit, tierLimit, cost, 0, None, true)
  }

  function ChargeOf(c: Automations.Config, plan: Plan, now: int): MonthlyQuota.Charge
    requires plan.monthlyQuota.Some?
  {
    MonthlyQuota.Charge(plan.monthlyKey, c.monthOf(now), plan.monthlyQuota.value, plan.cost, now)
  }

  function JarArgs(plan: Plan, lane: Option<Lane>): TokenBucket.Args {
    TokenBucket.Args(plan.key, LaneCapacity(plan, lane), LaneRefill(plan, lane), plan.cost)
  }

  function EventOf(now: int, tenant: string, allowed: bool, reason: string,
                   month: Option<MonthlyQuota.Verdict>): Automations.Event {
    Automations.Event(now, tenant, allowed, reason,
                      if month.Some? then Some(month.value.used) else None,
                      if month.Some? then Some(month.value.remaining) else None)
  }

  function ReasonFor(month: Option<MonthlyQuota.Verdict>, jarAllowed: bool): string {
    if month.Some? && !month.value.allowed then "monthly_quota"
    else if !jarAllowed then "burst"
    else ""
  }

  /** Report a verdict reached, and let the autopilot see it. */
  function Settled(c: Automations.Config, w: World, r: Request, tenant: string, plan: Plan,
                   month: Option<MonthlyQuota.Verdict>, jar: TokenBucket.Decision): (World, Decision) {
    var reason := ReasonFor(month, jar.allowed);
    (w.(pilot := Automations.Decided(c, w.pilot, EventOf(r.now, tenant, reason == "", reason, month), r.now)),
     Decision(reason == "", reason, jar.remaining, LaneCapacity(plan, r.lane), plan.capacity, plan.cost,
              RetryAfter(reason, plan.cost, jar.remaining, LaneRefill(plan, r.lane)), month, false))
  }

  /** The jar, only if the plan said yes. */
  function Poured(c: Automations.Config, w: World, r: Request, tenant: string, plan: Plan,
                  month: Option<MonthlyQuota.Verdict>): (World, Decision) {
    if month.Some? && !month.value.allowed then
      Settled(c, w, r, tenant, plan, month, TokenBucket.Decision(false, 0))
    else if r.jarDown then (w, FailOpen(LaneCapacity(plan, r.lane), plan.capacity, plan.cost))
    else
      var (jars, d) := TokenBucket.Check(w.jars, r.now, JarArgs(plan, r.lane));
      Settled(c, w.(jars := jars), r, tenant, plan, month, d)
  }

  /** The plan meter, if the tier has a cap. */
  function Metered(c: Automations.Config, w: World, r: Request, tenant: string, plan: Plan): (World, Decision) {
    if plan.monthlyQuota.None? then Poured(c, w, r, tenant, plan, None)
    else if r.meterDown then (w, FailOpen(plan.capacity, plan.capacity, plan.cost))
    else
      var (meters, v) := MonthlyQuota.Charged(w.meters, ChargeOf(c, plan, r.now));
      Poured(c, w.(meters := meters), r, tenant, plan, Some(v))
  }

  function BanDecision(plan: Plan, left: int): Decision {
    Decision(false, "auto_cooldown", 0, plan.capacity, plan.capacity, plan.cost, left, None, false)
  }

  /** The whole decision.  A policy error lets the request through. */
  function Checked(c: Automations.Config, w: World, r: Request): (World, Decision) {
    var who := Identify(w.book, r.apiKey, r.ip);
    match Resolve(w.book, who.tenantId, who.tier, r.route)
    case UnknownTier => (w, FailOpen(0.0, 0.0, 0.0))
    case UnknownClass => (w, FailOpen(0.0, 0.0, 0.0))
    case Resolved(plan) =>
      var asked := w.(pilot := Automations.Asked(w.pilot, who.tenantId, r.now));
      var left := Automations.Remaining(w.pilot, who.tenantId, r.now);
      if left > 0 then (asked, BanDecision(plan, left)) else Metered(c, asked, r, who.tenantId, plan)
  }

  class Server {
    const rulebook: Rulebook
    const autopilot: Automations.Autopilot
    const monthly: MonthlyQuota.Meters
    var jars: map<string, TokenBucket.Bucket>

    constructor (rulebook: Rulebook, autopilot: Automations.Autopilot, monthly: MonthlyQuota.Meters)
      ensures this.rulebook == rulebook && this.autopilot == autopilot && this.monthly == monthly
      ensures jars == map[]
    {
      this.rulebook, this.autopilot, this.monthly := rulebook, autopilot, monthly;
      jars := map[];
    }

    function View(): World
      reads this, rulebook, autopilot, monthly
    {
      World(rulebook.View(), jars, monthly.meters, autopilot.View())
    }

    method Check(r: Request) returns (d: Decision)
      modifies this`jars, autopilot, monthly
      ensures (View(), d) == Checked(autopilot.config, old(View()), r)
    {
      var book := rulebook.View();
      var who := Identify(book, r.apiKey, r.ip);
      var resolution := Resolve(book, who.tenantId, who.tier, r.route);
      if !resolution.Resolved? {
        return FailOpen(0.0, 0.0, 0.0);
      }
      var plan := resolution.plan;
      var left := autopilot.BanRemainingMs(who.tenantId, r.now);
      if left > 0 {
        autopilot.OnDecision(EventOf(r.now, who.tenantId, false, "auto_cooldown", None), r.now);
        return BanDecision(plan, left);
      }
      d := Meter(r, who.tenantId, plan);
    }

    method Meter(r: Request, tenant: string, plan: Plan) returns (d: Decision)
      modifies this`jars, autopilot, monthly
      ensures (View(), d) == Metered(autopilot.config, old(View()), r, tenant, plan)
    {
      var month: Option<MonthlyQuota.Verdict> := None;
      if plan.monthlyQuota.Some? {
        if r.meterDown {
          return FailOpen(plan.capacity, plan.capacity, plan.cost);
        }
        var v := monthly.Check(ChargeOf(autopilot.config, plan, r.now));
        month := Some(v);
      }
      d := Pour(r, tenant, plan, month);
    }

    method Pour(r: Request, tenant: string, plan: Plan, month: Option<MonthlyQuota.Verdict>) returns (d: Decision)
      modifies this`jars, autopilot
      ensures (View(), d) == Poured(autopilot.config, old(View()), r, tenant, plan, month)
    {
      var result := TokenBucket.Decision(false, 0);
      if month.None? || month.value.allowed {
        if r.jarDown {
          return FailOpen(LaneCapacity(plan, r.lane), plan.capacity, plan.cost);
        }
        var (filled, verdict) := TokenBucket.Check(jars, r.now, JarArgs(plan, r.lane));
        jars := filled;
        result := verdict;
      }
      d := Settle(r, tenant, plan, month, result);
    }

    method Settle(r: Request, tenant: string, plan: Plan, month: Option<MonthlyQuota.Verdict>, result: TokenBucket.Decision)
      returns (d: Decision)
      modifies autopilot
      ensures (View(), d) == Settled(autopilot.config, old(View()), r, tenant, plan, month, result)
    {
      var allowed := (month.None? || month.value.allowed) && result.allowed;
      var reason := "";
      if !allowed {
        if month.Some? && !month.value.allowed {
          reason := "monthly_quota";
        } else {
          reason := "burst";
        }
      }
      var refill, retryAfterMs := LaneRefill(plan, r.lane), 0;
      if reason == "burst" && refill > 0.0 {
        var missing := Max(plan.cost - result.remaining as real, 0.0);
        retryAfterMs := Ceil(missing / refill);
      }
      autopilot.OnDecision(EventOf(r.now, tenant, allowed, reason, month), r.now);
      d := Decision(allowed, reason, result.remaining, LaneCapacity(plan, r.lane), plan.capacity, plan.cost,
                    retryAfterMs, month, false);
    }
  }
}
