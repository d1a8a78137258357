module Isolation {
  // One tenant's traffic is nothing to another: whose jars and meters the resolved plans name, and what
  // that means for the whole decision.

  import opened Wrappers
  import opened Policy
  import opened Gateway
  import opened GatewayProofs
  import Automations
  import AutomationsProofs
  import MonthlyQuota
  import TokenBucket

  // ---- The plans --------------------------------------------------------------------

  /** On one tier and route the jars are apart exactly as the tenants are; and so are the month meters on
      one tier, whatever the routes. */
  lemma PlansApart(book: Book, a: string, b: string, tier: string, route: string, other: string)
    requires Resolve(book, a, tier, route).Resolved? && Resolve(book, b, tier, route).Resolved?
    requires Resolve(book, b, tier, other).Resolved?
    ensures Resolve(book, a, tier, route).plan.key == Resolve(book, b, tier, route).plan.key <==> a == b
    ensures Resolve(book, a, tier, route).plan.monthlyKey == Resolve(book, b, tier, other).plan.monthlyKey <==> a == b
  {
    PlanKeys(book, a, tier, route);
    PlanKeys(book, b, tier, route);
    PlanKeys(book, b, tier, other);
    EndsAlike(a, b, Suffix(tier, route));
    EndsAlike(a, b, ":" + tier + ":monthly");
  }

  lemma PlanKeys(book: Book, a: string, tier: string, route: string)
    requires Resolve(book, a, tier, route).Resolved?
    ensures Resolve(book, a, tier, route).plan.key == a + Suffix(tier, route)
    ensures Resolve(book, a, tier, route).plan.monthlyKey == a + (":" + tier + ":monthly")
  {
    assert a + ":" + tier + ":monthly" == a + (":" + tier + ":monthly");
  }

  lemma EndsAlike(a: string, b: string, end: string)
    ensures a + end == b + end <==> a == b
  {
    var x, y := a + end, b + end;
    assert a == x[..|x| - |end|] && b == y[..|y| - |end|];
  }

  /** A tenant's routes are apart as well, as long as it is the route that differs. */
  lemma RoutesApart(book: Book, a: string, tier: string, route: string, other: string)
    requires Resolve(book, a, tier, route).Resolved? && Resolve(book, a, tier, other).Resolved?
    ensures Resolve(book, a, tier, route).plan.key == Resolve(book, a, tier, other).plan.key <==> route == other
    ensures Resolve(book, a, tier, route).plan.monthlyKey == Resolve(book, a, tier, other).plan.monthlyKey
  {
    var x, y := Resolve(book, a, tier, route).plan.key, Resolve(book, a, tier, other).plan.key;
    var front := a + ":" + tier + ":";
    assert x == front + route && y == front + other;
    assert x[|front|..] == route && y[|front|..] == other;
  }

  // ---- The decision -----------------------------------------------------------------

  /** Two worlds that look alike to a request: the rulebook, what is left of a ban, the month's use and
      the jar. */
  ghost predicate LooksAlike(c: Automations.Config, w: World, v: World, r: Request) {
    && w.book == v.book
    && Automations.Remaining(w.pilot, Who(w, r).tenantId, r.now) == Automations.Remaining(v.pilot, Who(w, r).tenantId, r.now)
    && (PlanFor(w, r).Some? ==>
          var plan := PlanFor(w, r).value;
          && MonthlyQuota.UsedBy(w.meters, plan.monthlyKey, c.monthOf(r.now)) == MonthlyQuota.UsedBy(v.meters, plan.monthlyKey, c.monthOf(r.now))
          && TokenBucket.JarFor(w.jars, r.now, JarArgs(plan, r.lane)) == TokenBucket.JarFor(v.jars, r.now, JarArgs(plan, r.lane)))
  }

  /** Then they decide it alike. */
  lemma DecidedAlike(c: Automations.Config, w: World, v: World, r: Request)
    requires LooksAlike(c, w, v, r)
    ensures Checked(c, w, r).1 == Checked(c, v, r).1
  {
    if PlanFor(w, r).Some? {
      var plan := PlanFor(w, r).value;
      var tenant := Who(w, r).tenantId;
      var wa := w.(pilot := Automations.Asked(w.pilot, tenant, r.now));
      var va := v.(pilot := Automations.Asked(v.pilot, tenant, r.now));
      if Automations.Remaining(w.pilot, tenant, r.now) <= 0 {
        MeteredAlike(c, wa, va, r, tenant, plan);
      }
    }
  }

  lemma MeteredAlike(c: Automations.Config, w: World, v: World, r: Request, tenant: string, plan: Plan)
    requires MonthlyQuota.UsedBy(w.meters, plan.monthlyKey, c.monthOf(r.now)) == MonthlyQuota.UsedBy(v.meters, plan.monthlyKey, c.monthOf(r.now))
    requires TokenBucket.JarFor(w.jars, r.now, JarArgs(plan, r.lane)) == TokenBucket.JarFor(v.jars, r.now, JarArgs(plan, r.lane))
    ensures Metered(c, w, r, tenant, plan).1 == Metered(c, v, r, tenant, plan).1
  {
    if plan.monthlyQuota.None? {
      PouredAlike(c, w, v, r, tenant, plan, None);
    } else if !r.meterDown {
      var (wm, wv) := MonthlyQuota.Charged(w.meters, ChargeOf(c, plan, r.now));
      var (vm, vv) := MonthlyQuota.Charged(v.meters, ChargeOf(c, plan, r.now));
      PouredAlike(c, w.(meters := wm), v.(meters := vm), r, tenant, plan, Some(wv));
    }
  }

  lemma PouredAlike(c: Automations.Config, w: World, v: World, r: Request, tenant: string, plan: Plan,
                    month: Option<MonthlyQuota.Verdict>)
    requires TokenBucket.JarFor(w.jars, r.now, JarArgs(plan, r.lane)) == TokenBucket.JarFor(v.jars, r.now, JarArgs(plan, r.lane))
    ensures Poured(c, w, r, tenant, plan, month).1 == Poured(c, v, r, tenant, plan, month).1
  {
  }

  // ---- Apart ------------------------------------------------------------------------

  lemma DecidedElsewhere(c: Automations.Config, p: Automations.Pilot, e: Automations.Event, now: int, t: string)
    requires e.tenant != t
    ensures t in Automations.Decided(c, p, e, now).bans <==> t in p.bans
    ensures t in p.bans ==> Automations.Decided(c, p, e, now).bans[t] == p.bans[t]
  {
    if Automations.Blocked(e) {
      AutomationsProofs.StormAlone(c, p, e, now);
    } else {
      AutomationsProofs.OthersLeaveStorms(c, p, AutomationsProofs.Decide(e, now));
    }
  }

  lemma SettledElsewhere(c: Automations.Config, w: World, r: Request, tenant: string, plan: Plan,
                         month: Option<MonthlyQuota.Verdict>, t: string)
    requires tenant != t
    ensures
      var p := Poured(c, w, r, tenant, plan, month).0.pilot;
      && (t in p.bans <==> t in w.pilot.bans) && (t in p.bans ==> p.bans[t] == w.pilot.bans[t])
  {
    var jar := if month.Some? && !month.value.allowed then TokenBucket.Decision(false, 0)
               else TokenBucket.Check(w.jars, r.now, JarArgs(plan, r.lane)).1;
    var reason := ReasonFor(month, jar.allowed);
    DecidedElsewhere(c, w.pilot, EventOf(r.now, tenant, reason == "", reason, month), r.now, t);
  }

  /** The bans of other tenants stay as they are. */
  lemma BansElsewhere(c: Automations.Config, w: World, r: Request, t: string)
    requires Who(w, r).tenantId != t
    ensures
      var p := Checked(c, w, r).0.pilot;
      && (t in p.bans <==> t in w.pilot.bans) && (t in p.bans ==> p.bans[t] == w.pilot.bans[t])
  {
    if PlanFor(w, r).Some? {
      var plan, tenant := PlanFor(w, r).value, Who(w, r).tenantId;
      var asked := w.(pilot := Automations.Asked(w.pilot, tenant, r.now));
      if plan.monthlyQuota.None? {
        SettledElsewhere(c, asked, r, tenant, plan, None, t);
      } else {
        var (meters, v) := MonthlyQuota.Charged(w.meters, ChargeOf(c, plan, r.now));
        SettledElsewhere(c, asked.(meters := meters), r, tenant, plan, Some(v), t);
      }
    }
  }

  /** A request leaves what another tenant's looks at as it was, if their plans name other jars and
      meters. */
  lemma LeavesAlone(c: Automations.Config, w: World, r: Request, q: Request)
    requires Who(w, r).tenantId != Who(w, q).tenantId
    requires PlanFor(w, r).Some? && PlanFor(w, q).Some? ==>
               && PlanFor(w, r).value.key != PlanFor(w, q).value.key
               && PlanFor(w, r).value.monthlyKey != PlanFor(w, q).value.monthlyKey
    ensures LooksAlike(c, w, Checked(c, w, r).0, q)
  {
    WhatMoves(c, w, r);
    BansElsewhere(c, w, r, Who(w, q).tenantId);
  }

  /** Whatever one tenant asks for, another on the same tier is answered on that route as if it had not:
      the same decision, to the last token, unit and millisecond. */
  lemma TenantsApart(c: Automations.Config, w: World, r: Request, q: Request)
    requires Who(w, r).tenantId != Who(w, q).tenantId && Who(w, r).tier == Who(w, q).tier && r.route == q.route
    ensures Checked(c, Checked(c, w, r).0, q).1 == Checked(c, w, q).1
    ensures PlanFor(w, q).Some? ==>
              && JarAnswer(Checked(c, w, r).0, q).1 == JarAnswer(w, q).1
              && (PlanFor(w, q).value.monthlyKey in Checked(c, w, r).0.meters <==> PlanFor(w, q).value.monthlyKey in w.meters)
              && (PlanFor(w, q).value.monthlyKey in w.meters ==>
                    Checked(c, w, r).0.meters[PlanFor(w, q).value.monthlyKey] == w.meters[PlanFor(w, q).value.monthlyKey])
  {
    WhatMoves(c, w, r);
    if PlanFor(w, r).Some? && PlanFor(w, q).Some? {
      PlansApart(w.book, Who(w, r).tenantId, Who(w, q).tenantId, Who(w, r).tier, r.route, r.route);
    }
    LeavesAlone(c, w, r, q);
    DecidedAlike(c, w, Checked(c, w, r).0, q);
  }
}
