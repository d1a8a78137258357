/** What the gateway promises across its parts. */
module GatewayProofs {
  import opened Wrappers
  import opened Policy
  import opened Gateway
  import Automations
  import MonthlyQuota
  import MonthlyQuotaProofs
  import TokenBucket

  function Who(w: World, r: Request): Tenant {
    Identify(w.book, r.apiKey, r.ip)
  }

  function PlanFor(w: World, r: Request): Option<Plan> {
    match Resolve(w.book, Who(w, r).tenantId, Who(w, r).tier, r.route)
    case Resolved(plan) => Some(plan)
    case _ => None
  }

  predicate Banned(w: World, r: Request) {
    Automations.Banned(w.pilot, Who(w, r).tenantId, r.now)
  }

  /** The charge a request makes, let through or not. */
  function ChargeBy(c: Automations.Config, w: World, r: Request): Option<MonthlyQuota.Charge> {
    var plan := PlanFor(w, r);
    if plan.Some? && !Banned(w, r) && plan.value.monthlyQuota.Some? && !r.meterDown
    then Some(ChargeOf(c, plan.value, r.now)) else None
  }

  /** The plan meter, if it is asked, says yes. */
  predicate PlanAllows(c: Automations.Config, w: World, r: Request) {
    ChargeBy(c, w, r).Some? ==> MonthlyQuota.Charged(w.meters, ChargeBy(c, w, r).value).1.allowed
  }

  /** The request gets as far as the burst jar. */
  predicate ReachesJar(c: Automations.Config, w: World, r: Request) {
    && PlanFor(w, r).Some? && !Banned(w, r)
    && (PlanFor(w, r).value.monthlyQuota.Some? ==> !r.meterDown) && PlanAllows(c, w, r)
  }

  function JarAnswer(w: World, r: Request): (map<string, TokenBucket.Bucket>, TokenBucket.Decision)
    requires PlanFor(w, r).Some?
  {
    TokenBucket.Check(w.jars, r.now, JarArgs(PlanFor(w, r).value, r.lane))
  }

  /** The decision, case by case, from the five questions it asks. */
  lemma Outcome(c: Automations.Config, w: World, r: Request)
    ensures
      var (w', d) := Checked(c, w, r);
      && (d.failed <==> PlanFor(w, r).None? || (!Banned(w, r)
                        && ((PlanFor(w, r).value.monthlyQuota.Some? && r.meterDown) || (ReachesJar(c, w, r) && r.jarDown))))
      && (d.reason == "auto_cooldown" <==> PlanFor(w, r).Some? && Banned(w, r))
      && (d.reason == "monthly_quota" <==> PlanFor(w, r).Some? && !Banned(w, r) && !PlanAllows(c, w, r))
      && (d.reason == "burst" <==> ReachesJar(c, w, r) && !r.jarDown && !JarAnswer(w, r).1.allowed)
      && (d.allowed <==> d.reason == "")
  {
    var plan := PlanFor(w, r);
    if plan.Some? {
      RemainingIff(w, r);
    }
  }

  lemma RemainingIff(w: World, r: Request)
    ensures Automations.Remaining(w.pilot, Who(w, r).tenantId, r.now) > 0 <==> Banned(w, r)
  {
  }

  lemma PouredMoves(c: Automations.Config, w: World, r: Request, tenant: string, plan: Plan,
                    month: Option<MonthlyQuota.Verdict>)
    ensures
      var w' := Poured(c, w, r, tenant, plan, month).0;
      && w'.book == w.book && w'.meters == w.meters
      && w'.jars == (if (month.Some? && !month.value.allowed) || r.jarDown then w.jars
                     else TokenBucket.Check(w.jars, r.now, JarArgs(plan, r.lane)).0)
  {
  }

  /** Nothing is spent on a refusal that comes first: the jars move exactly when the request gets
      as far as them, and the meters exactly as the charge it makes. */
  lemma WhatMoves(c: Automations.Config, w: World, r: Request)
    ensures
      var w' := Checked(c, w, r).0;
      && w'.book == w.book
      && w'.jars == (if ReachesJar(c, w, r) && !r.jarDown then JarAnswer(w, r).0 else w.jars)
      && w'.meters == (if ChargeBy(c, w, r).Some? then MonthlyQuota.Charged(w.meters, ChargeBy(c, w, r).value).0 else w.meters)
  {
    if PlanFor(w, r).Some? {
      RemainingIff(w, r);
      var plan, tenant := PlanFor(w, r).value, Who(w, r).tenantId;
      var asked := w.(pilot := Automations.Asked(w.pilot, tenant, r.now));
      if plan.monthlyQuota.None? {
        PouredMoves(c, asked, r, tenant, plan, None);
      } else {
        var (meters, v) := MonthlyQuota.Charged(w.meters, ChargeOf(c, plan, r.now));
        PouredMoves(c, asked.(meters := meters), r, tenant, plan, Some(v));
      }
    }
  }

  /** Bans and plan refusals leave every jar as it was; a ban leaves the meters too. */
  lemma RefusalsSpareJars(c: Automations.Config, w: World, r: Request)
    ensures
      var (w', d) := Checked(c, w, r);
      && (d.reason == "auto_cooldown" || d.reason == "monthly_quota" ==> w'.jars == w.jars)
      && (d.reason == "auto_cooldown" ==> w'.meters == w.meters && w'.pilot == w.pilot)
  {
    Outcome(c, w, r);
    WhatMoves(c, w, r);
    RemainingIff(w, r);
  }

  /** No refund: a request the plan lets through and the jar then refuses stays charged. */
  lemma BurstRefusalStaysCharged(c: Automations.Config, w: World, r: Request)
    requires Checked(c, w, r).1.reason == "burst" && PlanFor(w, r).Some? && PlanFor(w, r).value.monthlyQuota.Some?
    ensures
      var plan, w' := PlanFor(w, r).value, Checked(c, w, r).0;
      && plan.monthlyKey in w'.meters
      && w'.meters[plan.monthlyKey].used == MonthlyQuota.UsedBy(w.meters, plan.monthlyKey, c.monthOf(r.now)) + plan.cost
      && plan.cost > 0.0
  {
    Outcome(c, w, r);
    WhatMoves(c, w, r);
    CostIsPositive(w, r);
  }

  lemma CostIsPositive(w: World, r: Request)
    ensures PlanFor(w, r).Some? ==> PlanFor(w, r).value.cost > 0.0
  {
  }

  // ---- Runs -------------------------------------------------------------------------

  /** Requests, and between them edits of the rulebook, the janitor's passes over the jars behind one
      lock, and charges made on the same meters by calls to a model. */
  datatype Op =
    | Serve(request: Request)
    | Edit(book: Book)
    | Sweep(part: set<string>, now: int, idleFor: int)
    | ModelCall(charge: MonthlyQuota.Charge)

  function Step(c: Automations.Config, w: World, op: Op): World {
    match op
    case Serve(r) => Checked(c, w, r).0
    case Edit(book) => w.(book := book)
    case Sweep(part, now, idleFor) => w.(jars := TokenBucket.SweepPart(w.jars, part, now, idleFor))
    case ModelCall(x) => w.(meters := MonthlyQuota.Charged(w.meters, x).0)
  }

  function Run(c: Automations.Config, w: World, ops: seq<Op>): World {
    if ops == [] then w else Step(c, Run(c, w, ops[..|ops| - 1]), ops[|ops| - 1])
  }

  function ChargesIn(c: Automations.Config, w: World, ops: seq<Op>): seq<MonthlyQuota.Charge> {
    if ops == [] then []
    else
      var before, last := ops[..|ops| - 1], ops[|ops| - 1];
      if last.Serve? && ChargeBy(c, Run(c, w, before), last.request).Some?
      then ChargesIn(c, w, before) + [ChargeBy(c, Run(c, w, before), last.request).value]
      else if last.ModelCall? then ChargesIn(c, w, before) + [last.charge]
      else ChargesIn(c, w, before)
  }

  /** What the plans let through for a key in a month, request by request and call by call. */
  function Bill(c: Automations.Config, w: World, ops: seq<Op>, key: string, month: string): real {
    if ops == [] then 0.0
    else
      var before, last := ops[..|ops| - 1], ops[|ops| - 1];
      var at := Run(c, w, before);
      Bill(c, w, before, key, month)
      + if last.Serve? && ChargeBy(c, at, last.request).Some? && PlanAllows(c, at, last.request)
           && PlanFor(at, last.request).value.monthlyKey == key && c.monthOf(last.request.now) == month
        then PlanFor(at, last.request).value.cost
        else if last.ModelCall? && last.charge.key == key && last.charge.month == month
                && MonthlyQuota.Charged(at.meters, last.charge).1.allowed
        then MonthlyQuota.Price(last.charge.cost)
        else 0.0
  }

  lemma OneCharge(meters: map<string, MonthlyQuota.Meter>, cs: seq<MonthlyQuota.Charge>, x: MonthlyQuota.Charge)
    ensures MonthlyQuotaProofs.Run(meters, cs + [x]) == MonthlyQuota.Charged(MonthlyQuotaProofs.Run(meters, cs), x).0
    ensures MonthlyQuotaProofs.LastVerdict(meters, cs + [x]) == MonthlyQuota.Charged(MonthlyQuotaProofs.Run(meters, cs), x).1
  {
    assert (cs + [x])[..|cs|] == cs;
  }

  lemma OneSpend(meters: map<string, MonthlyQuota.Meter>, cs: seq<MonthlyQuota.Charge>, x: MonthlyQuota.Charge,
                 key: string, month: string)
    ensures MonthlyQuotaProofs.Spent(meters, cs + [x], key, month)
            == MonthlyQuotaProofs.Spent(meters, cs, key, month)
               + if x.key == key && x.month == month && MonthlyQuota.Charged(MonthlyQuotaProofs.Run(meters, cs), x).1.allowed
                 then MonthlyQuota.Price(x.cost) else 0.0
  {
    assert (cs + [x])[..|cs|] == cs;
    OneCharge(meters, cs, x);
  }

  lemma {:induction false} MetersAreCharges(c: Automations.Config, w: World, ops: seq<Op>)
    ensures Run(c, w, ops).meters == MonthlyQuotaProofs.Run(w.meters, ChargesIn(c, w, ops))
  {
    if ops != [] {
      var before, last := ops[..|ops| - 1], ops[|ops| - 1];
      var at := Run(c, w, before);
      MetersAreCharges(c, w, before);
      if last.Serve? {
        WhatMoves(c, at, last.request);
        if ChargeBy(c, at, last.request).Some? {
          OneCharge(w.meters, ChargesIn(c, w, before), ChargeBy(c, at, last.request).value);
        }
      } else if last.ModelCall? {
        OneCharge(w.meters, ChargesIn(c, w, before), last.charge);
      }
    }
  }

  lemma {:induction false} BillIsSpent(c: Automations.Config, w: World, ops: seq<Op>, key: string, month: string)
    ensures Bill(c, w, ops, key, month) == MonthlyQuotaProofs.Spent(w.meters, ChargesIn(c, w, ops), key, month)
  {
    if ops != [] {
      var before, last := ops[..|ops| - 1], ops[|ops| - 1];
      var at := Run(c, w, before);
      BillIsSpent(c, w, before, key, month);
      MetersAreCharges(c, w, before);
      if last.Serve? && ChargeBy(c, at, last.request).Some? {
        CostIsPositive(at, last.request);
        OneSpend(w.meters, ChargesIn(c, w, before), ChargeBy(c, at, last.request).value, key, month);
      } else if last.ModelCall? {
        OneSpend(w.meters, ChargesIn(c, w, before), last.charge, key, month);
      }
    }
  }

  /** Over any run from empty meters, unreachable stores, rulebook edits and calls to a model included,
      a key's meter is exactly the summed cost of what the plan let through in its current month. */
  lemma MeterIsBill(c: Automations.Config, w: World, ops: seq<Op>, key: string)
    requires w.meters == map[] && MonthlyQuotaProofs.MonthsPass(ChargesIn(c, w, ops))
    requires key in Run(c, w, ops).meters
    ensures Run(c, w, ops).meters[key].used == Bill(c, w, ops, key, Run(c, w, ops).meters[key].month)
  {
    MetersAreCharges(c, w, ops);
    MonthlyQuotaProofs.MeterIsSpend(ChargesIn(c, w, ops), key);
    BillIsSpent(c, w, ops, key, Run(c, w, ops).meters[key].month);
  }

  /** And never above the quota, while no tier it was charged against had a larger one. */
  lemma MeterWithinQuota(c: Automations.Config, w: World, ops: seq<Op>, key: string, quota: real)
    requires w.meters == map[] && quota >= 0.0
    requires forall x | x in ChargesIn(c, w, ops) && x.key == key :: x.quota <= quota
    ensures key in Run(c, w, ops).meters ==> Run(c, w, ops).meters[key].used <= quota
  {
    MetersAreCharges(c, w, ops);
    MonthlyQuotaProofs.WithinQuota(w.meters, ChargesIn(c, w, ops), key, quota);
  }

  // ---- Retry-After ------------------------------------------------------------------

  lemma CeilCovers(x: real)
    ensures x <= Ceil(x) as real
  {
  }

  lemma Covers(missing: real, refill: real, waited: int)
    requires refill > 0.0 && waited >= Ceil(missing / refill)
    ensures TokenBucket.Accrued(waited, refill) >= missing
  {
    var q := missing / refill;
    CeilCovers(q);
    assert q * refill == missing;
    Grows(q, waited as real, refill);
  }

  lemma Grows(a: real, b: real, m: real)
    requires a <= b && m > 0.0
    ensures a * m <= b * m
  {
  }

  /** A refused jar, left alone for as long as it was said to need, holds enough exactly when it is
      large enough to. */
  lemma WaitSuffices(b: TokenBucket.Bucket, now: int, later: int, a: TokenBucket.Args)
    requires a.refill > 0.0 && a.cost > 0.0
    requires !TokenBucket.Serve(b, now, a).1.allowed
    requires later >= now + RetryAfter("burst", a.cost, TokenBucket.Serve(b, now, a).1.remaining, a.refill)
    ensures TokenBucket.Serve(TokenBucket.Serve(b, now, a).0, later, a).1.allowed <==> a.cost <= a.capacity
  {
    var (b1, d) := TokenBucket.Serve(b, now, a);
    var missing := Max(a.cost - d.remaining as real, 0.0);
    Covers(missing, a.refill, later - now);
    assert b1.tokens + missing >= a.cost;
    assert b1.tokens < a.cost;
  }

  /** The Retry-After promise.  A burst-refused request, repeated after the time it was given in
      the same lane, with no other spender on its jar and neither a ban nor the plan in the way,
      is let through exactly when one request's cost fits the jar; in a lane it always fits. */
  lemma RetryPassesIff(c: Automations.Config, w: World, r: Request, w2: World, r2: Request)
    requires Checked(c, w, r).1.reason == "burst" && PlanFor(w, r).Some?
    requires PlanFor(w2, r2) == PlanFor(w, r) && r2.lane == r.lane && LaneRefill(PlanFor(w, r).value, r.lane) > 0.0
    requires PlanFor(w, r).value.key in Checked(c, w, r).0.jars && PlanFor(w, r).value.key in w2.jars
    requires w2.jars[PlanFor(w, r).value.key] == Checked(c, w, r).0.jars[PlanFor(w, r).value.key]
    requires r2.now >= r.now + Checked(c, w, r).1.retryAfterMs
    requires ReachesJar(c, w2, r2) && !r2.jarDown
    ensures Checked(c, w2, r2).1.allowed <==> PlanFor(w, r).value.cost <= LaneCapacity(PlanFor(w, r).value, r.lane)
    ensures r.lane.Some? ==> Checked(c, w2, r2).1.allowed
  {
    var plan := PlanFor(w, r).value;
    var a := JarArgs(plan, r.lane);
    Outcome(c, w, r);
    WhatMoves(c, w, r);
    CostIsPositive(w, r);
    HintIs(c, w, r);
    WaitSuffices(TokenBucket.JarFor(w.jars, r.now, a), r.now, r2.now, a);
    Outcome(c, w2, r2);
    Admitted(c, w2, r2);
  }

  lemma HintIs(c: Automations.Config, w: World, r: Request)
    requires Checked(c, w, r).1.reason == "burst" && PlanFor(w, r).Some?
    ensures Checked(c, w, r).1.retryAfterMs
            == RetryAfter("burst", PlanFor(w, r).value.cost, JarAnswer(w, r).1.remaining, LaneRefill(PlanFor(w, r).value, r.lane))
  {
    Outcome(c, w, r);
    RemainingIff(w, r);
  }

  lemma Admitted(c: Automations.Config, w: World, r: Request)
    requires ReachesJar(c, w, r) && !r.jarDown
    ensures Checked(c, w, r).1.allowed <==> JarAnswer(w, r).1.allowed
  {
    Outcome(c, w, r);
  }

  lemma CeilBelow(x: real, n: int)
    requires n < Ceil(x)
    ensures n as real < x
  {
  }

  lemma FallsShort(missing: real, refill: real, waited: int)
    requires refill > 0.0 && 0 <= waited < Ceil(missing / refill)
    ensures TokenBucket.Accrued(waited, refill) < missing
  {
    var q := missing / refill;
    CeilBelow(q, waited);
    assert q * refill == missing;
    Shrinks(waited as real, q, refill);
  }

  lemma Shrinks(a: real, b: real, m: real)
    requires a < b && m > 0.0
    ensures a * m < b * m
  {
  }

  lemma WaitIsNeeded(b: TokenBucket.Bucket, now: int, later: int, a: TokenBucket.Args)
    requires a.refill > 0.0 && a.cost > 0.0
    requires !TokenBucket.Serve(b, now, a).1.allowed
    requires TokenBucket.Serve(b, now, a).0.tokens == TokenBucket.Serve(b, now, a).1.remaining as real
    requires now <= later < now + RetryAfter("burst", a.cost, TokenBucket.Serve(b, now, a).1.remaining, a.refill)
    ensures !TokenBucket.Serve(TokenBucket.Serve(b, now, a).0, later, a).1.allowed
  {
    var (b1, d) := TokenBucket.Serve(b, now, a);
    var missing := Max(a.cost - d.remaining as real, 0.0);
    FallsShort(missing, a.refill, later - now);
    assert missing > 0.0;
  }

  /** Nor is anyone kept waiting: a jar that holds what is reported as remaining, and no fraction on
      top, refuses the request again at every instant before that. */
  lemma RetryIsNeeded(c: Automations.Config, w: World, r: Request, w2: World, r2: Request)
    requires Checked(c, w, r).1.reason == "burst" && PlanFor(w, r).Some?
    requires PlanFor(w2, r2) == PlanFor(w, r) && r2.lane == r.lane && LaneRefill(PlanFor(w, r).value, r.lane) > 0.0
    requires PlanFor(w, r).value.key in Checked(c, w, r).0.jars && PlanFor(w, r).value.key in w2.jars
    requires w2.jars[PlanFor(w, r).value.key] == Checked(c, w, r).0.jars[PlanFor(w, r).value.key]
    requires w2.jars[PlanFor(w, r).value.key].tokens == Checked(c, w, r).1.remaining as real
    requires r.now <= r2.now < r.now + Checked(c, w, r).1.retryAfterMs
    requires ReachesJar(c, w2, r2) && !r2.jarDown
    ensures Checked(c, w2, r2).1.reason == "burst"
  {
    var plan := PlanFor(w, r).value;
    var a := JarArgs(plan, r.lane);
    Outcome(c, w, r);
    WhatMoves(c, w, r);
    CostIsPositive(w, r);
    HintIs(c, w, r);
    RemainingIs(c, w, r);
    WaitIsNeeded(TokenBucket.JarFor(w.jars, r.now, a), r.now, r2.now, a);
    Outcome(c, w2, r2);
  }

  lemma RemainingIs(c: Automations.Config, w: World, r: Request)
    requires Checked(c, w, r).1.reason == "burst" && PlanFor(w, r).Some?
    ensures Checked(c, w, r).1.remaining == JarAnswer(w, r).1.remaining
  {
    Outcome(c, w, r);
    RemainingIff(w, r);
  }

  // ---- How long a cooldown lasts ----------------------------------------------------

  /** The ban on file for a tenant. */
  predicate BanUntil(p: Automations.Pilot, tenant: string, until: int) {
    tenant in p.bans && p.bans[tenant] == until
  }

  lemma DecidedKeepsBan(c: Automations.Config, p: Automations.Pilot, e: Automations.Event, now: int, tenant: string,
                        until: int)
    requires BanUntil(p, tenant, until) && now < until
    ensures BanUntil(Automations.Decided(c, p, e, now), tenant, until)
  {
  }

  lemma PouredKeepsBan(c: Automations.Config, w: World, r: Request, who: string, plan: Plan,
                       month: Option<MonthlyQuota.Verdict>, tenant: string, until: int)
    requires BanUntil(w.pilot, tenant, until) && r.now < until
    ensures BanUntil(Poured(c, w, r, who, plan, month).0.pilot, tenant, until)
  {
    var jar := if month.Some? && !month.value.allowed then TokenBucket.Decision(false, 0)
               else TokenBucket.Check(w.jars, r.now, JarArgs(plan, r.lane)).1;
    var reason := ReasonFor(month, jar.allowed);
    DecidedKeepsBan(c, w.pilot, EventOf(r.now, who, reason == "", reason, month), r.now, tenant, until);
  }

  lemma CheckedKeepsBan(c: Automations.Config, w: World, r: Request, tenant: string, until: int)
    requires BanUntil(w.pilot, tenant, until) && r.now < until
    ensures BanUntil(Checked(c, w, r).0.pilot, tenant, until)
  {
    if PlanFor(w, r).Some? {
      RemainingIff(w, r);
      var plan, who := PlanFor(w, r).value, Who(w, r).tenantId;
      var asked := w.(pilot := Automations.Asked(w.pilot, who, r.now));
      if plan.monthlyQuota.None? {
        PouredKeepsBan(c, asked, r, who, plan, None, tenant, until);
      } else {
        var (meters, v) := MonthlyQuota.Charged(w.meters, ChargeOf(c, plan, r.now));
        PouredKeepsBan(c, asked.(meters := meters), r, who, plan, Some(v), tenant, until);
      }
    }
  }

  /** Every request of the run is decided before an instant. */
  predicate Before(ops: seq<Op>, until: int) {
    forall op | op in ops && op.Serve? :: op.request.now < until
  }

  lemma {:induction false} RunKeepsBan(c: Automations.Config, w: World, ops: seq<Op>, tenant: string, until: int)
    requires BanUntil(w.pilot, tenant, until) && Before(ops, until)
    ensures BanUntil(Run(c, w, ops).pilot, tenant, until)
  {
    if ops != [] {
      var before, last := ops[..|ops| - 1], ops[|ops| - 1];
      assert last in ops && forall op | op in before :: op in ops;
      RunKeepsBan(c, w, before, tenant, until);
      if last.Serve? {
        CheckedKeepsBan(c, Run(c, w, before), last.request, tenant, until);
      }
    }
  }

  lemma CooldownIs(c: Automations.Config, w: World, r: Request)
    requires Checked(c, w, r).1.reason == "auto_cooldown"
    ensures
      var (w', d) := Checked(c, w, r);
      BanUntil(w'.pilot, Who(w, r).tenantId, r.now + d.retryAfterMs) && d.retryAfterMs > 0
  {
    Outcome(c, w, r);
    RemainingIff(w, r);
  }

  /** A cooldown lasts as long as it was said to, to the millisecond.  A request refused for one, and
      repeated after any run of requests decided while it lasts, is refused for it again exactly when
      less than the time it was given has passed. */
  lemma CooldownLasts(c: Automations.Config, w: World, r: Request, ops: seq<Op>, again: Request)
    requires Checked(c, w, r).1.reason == "auto_cooldown"
    requires Before(ops, r.now + Checked(c, w, r).1.retryAfterMs)
    requires Who(Run(c, Checked(c, w, r).0, ops), again).tenantId == Who(w, r).tenantId
    requires PlanFor(Run(c, Checked(c, w, r).0, ops), again).Some?
    ensures Checked(c, Run(c, Checked(c, w, r).0, ops), again).1.reason == "auto_cooldown"
            <==> again.now < r.now + Checked(c, w, r).1.retryAfterMs
  {
    var (w', d) := Checked(c, w, r);
    CooldownIs(c, w, r);
    RunKeepsBan(c, w', ops, Who(w, r).tenantId, r.now + d.retryAfterMs);
    Outcome(c, Run(c, w', ops), again);
  }

  // ---- What is reported -------------------------------------------------------------

  lemma LeftInJar(b: TokenBucket.Bucket, now: int, a: TokenBucket.Args)
    requires a.cost > 0.0
    ensures TokenBucket.Serve(b, now, a).1.remaining as real <= a.capacity
  {
  }

  /** The limit reported is the one enforced, so what is reported as remaining never exceeds it,
      whatever lane the client is in. */
  lemma RemainingWithinLimit(c: Automations.Config, w: World, r: Request)
    requires PlanFor(w, r).Some? && PlanFor(w, r).value.capacity >= 0.0
    ensures Checked(c, w, r).1.remaining as real <= Checked(c, w, r).1.limit
  {
    var plan := PlanFor(w, r).value;
    var a := JarArgs(plan, r.lane);
    RemainingIff(w, r);
    CostIsPositive(w, r);
    LeftInJar(TokenBucket.JarFor(w.jars, r.now, a), r.now, a);
  }

  lemma HalfAway(x: real)
    requires x >= 0.0
    ensures Round(x) == Round(x).Floor as real && Round(x) - 0.5 <= x < Round(x) + 0.5
  {
  }

  /** In a lane the plan's refill is scaled, and its capacity is scaled to the nearest whole number, a half
      going up, but never below what one request costs. */
  lemma LaneScales(plan: Plan, lane: Lane)
    requires plan.capacity >= 0.0 && lane.burstMult >= 0.0
    ensures LaneRefill(plan, Some(lane)) == plan.refillRatePerMs * lane.refillMult
    ensures
      var x, limit := plan.capacity * lane.burstMult, LaneCapacity(plan, Some(lane));
      && limit >= plan.cost
      && (limit == plan.cost ==> x < plan.cost + 0.5)
      && (limit > plan.cost ==> limit == limit.Floor as real && limit - 0.5 <= x < limit + 0.5)
  {
    ScaledNotNegative(plan.capacity, lane.burstMult);
    HalfAway(Scaled(plan.capacity, lane.burstMult));
  }

  lemma ScaledNotNegative(a: real, b: real)
    requires a >= 0.0 && b >= 0.0
    ensures a * b >= 0.0
  {
  }

  lemma PouredReports(c: Automations.Config, w: World, r: Request, tenant: string, plan: Plan,
                      month: Option<MonthlyQuota.Verdict>)
    ensures
      var d := Poured(c, w, r, tenant, plan, month).1;
      && d.cost == plan.cost && d.tierLimit == plan.capacity && d.limit == LaneCapacity(plan, r.lane)
      && (if d.failed then d.remaining == d.retryAfterMs == 0 && d.monthly.None? else d.monthly == month)
  {
  }

  /** Every answer to a request with a plan reports that plan: its cost and its own limit, and as the limit
      enforced the lane's, or the plan's own where it did not get as far as its lane. */
  lemma ReportsThePlan(c: Automations.Config, w: World, r: Request)
    requires PlanFor(w, r).Some?
    ensures
      var plan, d := PlanFor(w, r).value, Checked(c, w, r).1;
      && d.cost == plan.cost && d.tierLimit == plan.capacity
      && d.limit == (if Banned(w, r) || (plan.monthlyQuota.Some? && r.meterDown) then plan.capacity else LaneCapacity(plan, r.lane))
      && (d.failed ==> d.remaining == d.retryAfterMs == 0)
      && (d.monthly.Some? <==> ChargeBy(c, w, r).Some? && !d.failed)
      && (d.monthly.Some? ==> d.monthly.value == MonthlyQuota.Charged(w.meters, ChargeBy(c, w, r).value).1)
  {
    RemainingIff(w, r);
    var plan, tenant := PlanFor(w, r).value, Who(w, r).tenantId;
    var asked := w.(pilot := Automations.Asked(w.pilot, tenant, r.now));
    if plan.monthlyQuota.None? {
      PouredReports(c, asked, r, tenant, plan, None);
    } else {
      var (meters, v) := MonthlyQuota.Charged(w.meters, ChargeOf(c, plan, r.now));
      PouredReports(c, asked.(meters := meters), r, tenant, plan, Some(v));
    }
  }

  lemma Share(used: real, quota: real)
    requires quota > 0.0
    ensures used / quota >= 0.8 <==> used >= 0.8 * quota
  {
    var q := used / quota;
    assert q * quota == used;
    if q >= 0.8 {
      Grows(0.8, q, quota);
    } else {
      Shrinks(q, 0.8, quota);
    }
  }

  /** The autopilot sees only usage and remainder, and from them finds the plan 80% used exactly
      when it is, or when a smaller plan has left it overdrawn. */
  lemma AlertIsEightyPercent(meters: map<string, MonthlyQuota.Meter>, x: MonthlyQuota.Charge, tenant: string, reason: string)
    ensures
      var v := MonthlyQuota.Charged(meters, x).1;
      Automations.NearQuota(EventOf(x.now, tenant, v.allowed, reason, Some(v)))
      <==> if v.used <= x.quota then x.quota > 0.0 && v.used >= 0.8 * x.quota else v.used > 0.0
  {
    var v := MonthlyQuota.Charged(meters, x).1;
    if v.used <= x.quota {
      assert v.used + v.remaining == x.quota;
      if x.quota > 0.0 {
        Share(v.used, x.quota);
      }
    } else {
      assert v.used + v.remaining == v.used;
      if v.used > 0.0 {
        Share(v.used, v.used);
      }
    }
  }

  // ---- The autopilot and the gateway together ---------------------------------------

  lemma DecidedEvidence(c: Automations.Config, p: Automations.Pilot, e: Automations.Event, now: int)
    ensures Automations.Decided(c, p, e, now).stormLog != p.stormLog ==> e.reason == "burst"
  {
  }

  lemma PouredEvidence(c: Automations.Config, w: World, r: Request, tenant: string, plan: Plan,
                       month: Option<MonthlyQuota.Verdict>)
    ensures Poured(c, w, r, tenant, plan, month).0.pilot.stormLog != w.pilot.stormLog
            ==> Poured(c, w, r, tenant, plan, month).1.reason == "burst"
  {
    var jar := if month.Some? && !month.value.allowed then TokenBucket.Decision(false, 0)
               else TokenBucket.Check(w.jars, r.now, JarArgs(plan, r.lane)).1;
    var reason := ReasonFor(month, jar.allowed);
    DecidedEvidence(c, w.pilot, EventOf(r.now, tenant, reason == "", reason, month), r.now);
  }

  /** Taken as one step, a request adds to the storm evidence only on a burst block, and never under
      a ban.  (Requests that overlap are the subject of Overlap.) */
  lemma EvidenceIsUnbanned(c: Automations.Config, w: World, r: Request)
    ensures Checked(c, w, r).0.pilot.stormLog != w.pilot.stormLog ==> Checked(c, w, r).1.reason == "burst" && !Banned(w, r)
  {
    if PlanFor(w, r).Some? {
      RemainingIff(w, r);
      var plan, tenant := PlanFor(w, r).value, Who(w, r).tenantId;
      var asked := w.(pilot := Automations.Asked(w.pilot, tenant, r.now));
      if plan.monthlyQuota.None? {
        PouredEvidence(c, asked, r, tenant, plan, None);
      } else {
        var (meters, v) := MonthlyQuota.Charged(w.meters, ChargeOf(c, plan, r.now));
        PouredEvidence(c, asked.(meters := meters), r, tenant, plan, Some(v));
      }
    }
  }
}
