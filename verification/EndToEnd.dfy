/** What the parts promise together, over whole runs of the gateway. */
module EndToEnd {
  import opened Wrappers
  import opened Policy
  import opened Gateway
  import opened GatewayProofs
  import Automations
  import AutomationsProofs
  import JanitorBound
  import Overlap
  import StormEvidence
  import Operator
  import OperatorProofs
  import OperatorRuns
  import TokenBucket
  import TokenBucketProofs

  // ---- Operator and gateway ---------------------------------------------------------

  /** On the rulebook a reconcile leaves, once one has seen a valid policy, a request that carries a
      managed key is never let through for a policy error: it fails open only on a store that
      cannot be reached. */
  lemma ManagedKeysAreLimited(s: Operator.State, trace: seq<OperatorRuns.Action>, i: nat, j: nat, c: Automations.Config,
                              w: World, r: Request)
    requires i <= j && OperatorRuns.ReconcilesAt(s, trace, i) && OperatorRuns.ReconcilesAt(s, trace, j)
    requires OperatorProofs.Governed(OperatorRuns.At(s, trace, i))
    requires w.book == OperatorRuns.Run(s, trace[..j + 1]).book
    requires r.apiKey in OperatorRuns.Run(s, trace[..j + 1]).managedKeys && r.apiKey != ""
    ensures Checked(c, w, r).1.failed ==> r.meterDown || r.jarDown
  {
    OperatorRuns.NoFailOpen(s, trace, i, j, r.apiKey, r.ip, r.route);
    assert PlanFor(w, r).Some?;
    Outcome(c, w, r);
  }

  // ---- Limiter and gateway ----------------------------------------------------------

  /** The request asks a jar, and is answered. */
  predicate AsksJar(c: Automations.Config, w: World, r: Request) {
    ReachesJar(c, w, r) && !r.jarDown
  }

  /** What the jar of a key lets through: requests failed open are not its doing. */
  function Admitted(c: Automations.Config, w: World, ops: seq<Op>, key: string): real {
    if ops == [] then 0.0
    else
      var before, last := ops[..|ops| - 1], ops[|ops| - 1];
      var at := Run(c, w, before);
      Admitted(c, w, before, key)
      + if last.Serve? && AsksJar(c, at, last.request) && PlanFor(at, last.request).value.key == key && Checked(c, at, last.request).1.allowed
        then PlanFor(at, last.request).value.cost else 0.0
  }

  /** What a run does to its jars. */
  function JarActs(c: Automations.Config, w: World, ops: seq<Op>): seq<JanitorBound.Act> {
    if ops == [] then []
    else
      var before, last := ops[..|ops| - 1], ops[|ops| - 1];
      var at := Run(c, w, before);
      JarActs(c, w, before)
      + if last.Serve? && AsksJar(c, at, last.request)
        then [JanitorBound.Ask(last.request.now, JarArgs(PlanFor(at, last.request).value, last.request.lane))]
        else if last.Sweep? then [JanitorBound.Pass(last.part, last.now, last.idleFor)]
        else []
  }

  /** How often the janitor took the jar of a key. */
  function SweptIn(c: Automations.Config, w: World, ops: seq<Op>, key: string): nat {
    if ops == [] then 0
    else
      var before, last := ops[..|ops| - 1], ops[|ops| - 1];
      SweptIn(c, w, before, key)
      + if last.Sweep? && key in Run(c, w, before).jars && key !in Run(c, w, ops).jars then 1 else 0
  }

  lemma JarVerdict(c: Automations.Config, w: World, r: Request)
    requires AsksJar(c, w, r)
    ensures Checked(c, w, r).0.jars == TokenBucket.Check(w.jars, r.now, JarArgs(PlanFor(w, r).value, r.lane)).0
    ensures TokenBucketProofs.Paid(TokenBucket.Check(w.jars, r.now, JarArgs(PlanFor(w, r).value, r.lane)).1,
                                   JarArgs(PlanFor(w, r).value, r.lane))
            == if Checked(c, w, r).1.allowed then PlanFor(w, r).value.cost else 0.0
  {
    var plan := PlanFor(w, r).value;
    WhatMoves(c, w, r);
    GatewayProofs.Admitted(c, w, r);
    CostIsPositive(w, r);
    assert TokenBucket.Price(JarArgs(plan, r.lane).cost) == plan.cost;
    assert JarAnswer(w, r) == TokenBucket.Check(w.jars, r.now, JarArgs(plan, r.lane));
  }

  /** The jars, what they let through and how often they were swept, by the jar acts alone. */
  lemma {:induction false} JarsAreKept(c: Automations.Config, w: World, ops: seq<Op>, key: string, t1: int)
    ensures
      var l := JanitorBound.Run(w.jars, t1, JarActs(c, w, ops), key);
      l.jars == Run(c, w, ops).jars && l.spent == Admitted(c, w, ops, key) && l.swept == SweptIn(c, w, ops, key)
  {
    if ops != [] {
      var before, last := ops[..|ops| - 1], ops[|ops| - 1];
      var at, start := Run(c, w, before), JanitorBound.Ledger(w.jars, t1, 0.0, 0);
      JarsAreKept(c, w, before, key, t1);
      match last
      case Serve(r) =>
        if AsksJar(c, at, r) {
          var a := JarArgs(PlanFor(at, r).value, r.lane);
          JanitorBound.OneMore(start, JarActs(c, w, before), JanitorBound.Ask(r.now, a), key);
          JarVerdict(c, at, r);
        } else {
          WhatMoves(c, at, r);
          assert JarActs(c, w, before) + [] == JarActs(c, w, before);
        }
      case Sweep(part, now, idleFor) =>
        JanitorBound.OneMore(start, JarActs(c, w, before), JanitorBound.Pass(part, now, idleFor), key);
      case _ =>
        assert JarActs(c, w, before) + [] == JarActs(c, w, before);
    }
  }

  predicate Timed(op: Op) {
    op.Serve? || op.Sweep?
  }

  function At(op: Op): int
    requires Timed(op)
  {
    if op.Serve? then op.request.now else op.now
  }

  /** Requests in the order of their clocks, none before the first instant, nothing after the second,
      and no sweep under a clock that a later request is behind. */
  ghost predicate TimesWithin(ops: seq<Op>, t1: int, t2: int) {
    && (forall i | 0 <= i < |ops| && Timed(ops[i]) :: At(ops[i]) <= t2 && (ops[i].Serve? ==> t1 <= At(ops[i])))
    && (forall i, j | 0 <= i < j < |ops| && Timed(ops[i]) && ops[j].Serve? :: At(ops[i]) <= At(ops[j]))
  }

  /** Every plan and lane met stays under these ceilings. */
  ghost predicate Ceilings(c: Automations.Config, w: World, ops: seq<Op>, capacity: real, rate: real) {
    forall act | act in JarActs(c, w, ops) && act.Ask? :: 0.0 <= act.args.capacity <= capacity && 0.0 <= act.args.refill <= rate
  }

  /** The janitor takes nothing that has been idle for less. */
  ghost predicate Waits(ops: seq<Op>, idle: nat) {
    forall i | 0 <= i < |ops| && ops[i].Sweep? :: ops[i].idleFor >= idle
  }

  lemma {:induction false} ActsHaveTimes(c: Automations.Config, w: World, ops: seq<Op>, act: JanitorBound.Act)
    requires act in JarActs(c, w, ops)
    ensures exists i :: 0 <= i < |ops| && Timed(ops[i]) && At(ops[i]) == act.now
  {
    var n := |ops| - 1;
    if act in JarActs(c, w, ops[..n]) {
      ActsHaveTimes(c, w, ops[..n], act);
      var i :| 0 <= i < n && Timed(ops[..n][i]) && At(ops[..n][i]) == act.now;
      assert ops[i] == ops[..n][i];
    } else {
      assert Timed(ops[n]) && At(ops[n]) == act.now;
    }
  }

  lemma {:induction false} KeptMore(acts: seq<JanitorBound.Act>, x: JanitorBound.Act, capacity: real, rate: real,
                                    idle: nat, t1: int, t2: int)
    requires JanitorBound.AllKept(acts, capacity, rate, idle, t1, t2)
    requires JanitorBound.Kept(x, capacity, rate, idle, t1, t2)
    requires x.Ask? ==> forall act | act in acts :: act.now <= x.now
    ensures JanitorBound.AllKept(acts + [x], capacity, rate, idle, t1, t2)
    decreases |acts|
  {
    if acts == [] {
      assert [] + [x] == [x] && [x][1..] == [];
    } else {
      assert (acts + [x])[1..] == acts[1..] + [x] && acts[0] in acts;
      KeptMore(acts[1..], x, capacity, rate, idle,
               if acts[0].Ask? then acts[0].now else JanitorBound.Later(t1, acts[0].now), t2);
    }
  }

  lemma {:induction false} ActsAreKept(c: Automations.Config, w: World, ops: seq<Op>, capacity: real, rate: real,
                                       idle: nat, t1: int, t2: int)
    requires TimesWithin(ops, t1, t2) && Ceilings(c, w, ops, capacity, rate) && Waits(ops, idle)
    ensures JanitorBound.AllKept(JarActs(c, w, ops), capacity, rate, idle, t1, t2)
  {
    if ops != [] {
      var n := |ops| - 1;
      var acts, before := JarActs(c, w, ops), JarActs(c, w, ops[..n]);
      ActsAreKept(c, w, ops[..n], capacity, rate, idle, t1, t2);
      if acts != before {
        var x := acts[|acts| - 1];
        assert acts == before + [x] && x in acts;
        forall act | x.Ask? && act in before
          ensures act.now <= x.now
        {
          ActsHaveTimes(c, w, ops[..n], act);
          var i :| 0 <= i < n && Timed(ops[..n][i]) && At(ops[..n][i]) == act.now;
          assert ops[i] == ops[..n][i];
        }
        KeptMore(before, x, capacity, rate, idle, t1, t2);
      }
    }
  }

  /** What a rate limiter is for.  Between any two instants of a run, with the rulebook edited, the
      lanes changing at will below these ceilings and the janitor at work, the cost let through for
      one jar is at most its capacity, the refill of the interval, and, for each time the janitor
      took it, what its wait does not refill of a full one: nothing at all if the wait is long
      enough.  The jars need only be in order at the first instant, as they are when a server starts
      and wherever a run leaves them. */
  lemma AdmittedWithinBound(c: Automations.Config, w: World, ops: seq<Op>, key: string, capacity: real, rate: real,
                            idle: nat, t1: int, t2: int)
    requires TokenBucketProofs.Fine(w.jars, t1) && t1 <= t2 && 0.0 <= capacity && 0.0 <= rate
    requires TimesWithin(ops, t1, t2) && Ceilings(c, w, ops, capacity, rate) && Waits(ops, idle)
    ensures Admitted(c, w, ops, key)
            <= TokenBucketProofs.Allowance(capacity, rate, t1, t2)
               + JanitorBound.Times(SweptIn(c, w, ops, key), JanitorBound.Refund(capacity, rate, idle))
    ensures capacity <= TokenBucket.Accrued(idle, rate) || SweptIn(c, w, ops, key) == 0
            ==> Admitted(c, w, ops, key) <= TokenBucketProofs.Allowance(capacity, rate, t1, t2)
    ensures TokenBucketProofs.Fine(Run(c, w, ops).jars, t2)
  {
    JarsAreKept(c, w, ops, key, t1);
    ActsAreKept(c, w, ops, capacity, rate, idle, t1, t2);
    JanitorBound.SweptBound(w.jars, JarActs(c, w, ops), key, capacity, rate, idle, t1, t2);
    assert JanitorBound.Times(SweptIn(c, w, ops, key), 0.0) == 0.0;
    assert JanitorBound.Times(0, JanitorBound.Refund(capacity, rate, idle)) == 0.0;
  }

  // ---- Autopilot and gateway --------------------------------------------------------

  /** What the autopilot is asked and told while one request is decided. */
  function Told(c: Automations.Config, w: World, r: Request): seq<AutomationsProofs.Op> {
    if PlanFor(w, r).None? then []
    else
      var d := Checked(c, w, r).1;
      var tenant := Who(w, r).tenantId;
      var ask := AutomationsProofs.Ask(tenant, r.now);
      if Banned(w, r) || d.failed then [ask]
      else [ask, AutomationsProofs.Decide(EventOf(r.now, tenant, d.allowed, d.reason, d.monthly), r.now)]
  }

  function ToldIn(c: Automations.Config, w: World, ops: seq<Op>): seq<AutomationsProofs.Op> {
    if ops == [] then []
    else
      var before, last := ops[..|ops| - 1], ops[|ops| - 1];
      ToldIn(c, w, before) + if last.Serve? then Told(c, Run(c, w, before), last.request) else []
  }

  lemma PilotHears(c: Automations.Config, w: World, r: Request)
    ensures
      var told, p := Told(c, w, r), Checked(c, w, r).0.pilot;
      && |told| <= 2
      && p == (if |told| == 0 then w.pilot
               else if |told| == 1 then AutomationsProofs.Step(c, w.pilot, told[0])
               else AutomationsProofs.Step(c, AutomationsProofs.Step(c, w.pilot, told[0]), told[1]))
  {
    Outcome(c, w, r);
    if PlanFor(w, r).Some? {
      RemainingIff(w, r);
    }
  }

  lemma RunTwo(c: Automations.Config, ops: seq<AutomationsProofs.Op>, more: seq<AutomationsProofs.Op>)
    requires |more| <= 2
    ensures
      var p := AutomationsProofs.Run(c, ops);
      AutomationsProofs.Run(c, ops + more)
      == (if |more| == 0 then p
          else if |more| == 1 then AutomationsProofs.Step(c, p, more[0])
          else AutomationsProofs.Step(c, AutomationsProofs.Step(c, p, more[0]), more[1]))
  {
    var all := ops + more;
    if |more| == 0 {
      assert all == ops;
    } else if |more| == 1 {
      assert all[..|all| - 1] == ops;
    } else {
      var one := all[..|all| - 1];
      assert one[..|one| - 1] == ops && one[|one| - 1] == more[0];
    }
  }

  /** Where requests do not overlap, the autopilot inside the gateway is the autopilot on its own, fed
      what the gateway tells it request by request. */
  lemma {:induction false} PilotFollows(c: Automations.Config, w: World, ops: seq<Op>)
    requires w.pilot == Automations.IDLE
    ensures Run(c, w, ops).pilot == AutomationsProofs.Run(c, ToldIn(c, w, ops))
  {
    if ops != [] {
      var before, last := ops[..|ops| - 1], ops[|ops| - 1];
      PilotFollows(c, w, before);
      if last.Serve? {
        PilotHears(c, Run(c, w, before), last.request);
        RunTwo(c, ToldIn(c, w, before), Told(c, Run(c, w, before), last.request));
      } else {
        assert ToldIn(c, w, before) + [] == ToldIn(c, w, before);
      }
    }
  }

  /** The requests of a tenant that were answered "burst". */
  function BurstRefusals(c: Automations.Config, w: World, ops: seq<Op>, tenant: string): nat {
    if ops == [] then 0
    else
      var before, last := ops[..|ops| - 1], ops[|ops| - 1];
      var at := Run(c, w, before);
      BurstRefusals(c, w, before, tenant)
      + if last.Serve? && Who(at, last.request).tenantId == tenant && Checked(c, at, last.request).1.reason == "burst" then 1 else 0
  }

  lemma {:induction false} HitsAppend(ops: seq<AutomationsProofs.Op>, more: seq<AutomationsProofs.Op>, t: string)
    ensures AutomationsProofs.HitCount(ops + more, t) == AutomationsProofs.HitCount(ops, t) + AutomationsProofs.HitCount(more, t)
    decreases |more|
  {
    if more == [] {
      assert ops + more == ops;
    } else {
      var n := |more| - 1;
      assert (ops + more)[..|ops| + n] == ops + more[..n];
      HitsAppend(ops, more[..n], t);
    }
  }

  lemma ToldHits(c: Automations.Config, w: World, r: Request, t: string)
    ensures AutomationsProofs.HitCount(Told(c, w, r), t)
            == if Who(w, r).tenantId == t && Checked(c, w, r).1.reason == "burst" then 1 else 0
  {
    var told, d := Told(c, w, r), Checked(c, w, r).1;
    Outcome(c, w, r);
    if |told| == 1 {
      assert told[..0] == [];
    } else if |told| == 2 {
      var one := told[..1];
      assert one[..0] == [];
      assert AutomationsProofs.HitCount(one, t) == 0;
      assert AutomationsProofs.Hit(told[1], t) <==> Who(w, r).tenantId == t && d.reason == "burst";
    }
  }

  lemma {:induction false} HitsAreRefusals(c: Automations.Config, w: World, ops: seq<Op>, t: string)
    ensures AutomationsProofs.HitCount(ToldIn(c, w, ops), t) == BurstRefusals(c, w, ops, t)
  {
    if ops != [] {
      var before, last := ops[..|ops| - 1], ops[|ops| - 1];
      HitsAreRefusals(c, w, before, t);
      if last.Serve? {
        HitsAppend(ToldIn(c, w, before), Told(c, Run(c, w, before), last.request), t);
        ToldHits(c, Run(c, w, before), last.request, t);
      } else {
        assert ToldIn(c, w, before) + [] == ToldIn(c, w, before);
      }
    }
  }

  /** A client is only cooled down for what it was refused: where requests do not overlap, the
      threshold times a tenant's automatic cooldowns is at most its burst refusals. */
  lemma CooldownsCostRefusals(c: Automations.Config, w: World, ops: seq<Op>, tenant: string)
    requires w.pilot == Automations.IDLE
    ensures Run(c, w, ops).pilot == AutomationsProofs.Run(c, ToldIn(c, w, ops))
    ensures c.threshold * AutomationsProofs.TripCount(c, ToldIn(c, w, ops), tenant) <= BurstRefusals(c, w, ops, tenant)
  {
    PilotFollows(c, w, ops);
    AutomationsProofs.StormConservation(c, ToldIn(c, w, ops), tenant);
    HitsAreRefusals(c, w, ops, tenant);
  }

  /** The same run in sections: each report is of the ask just before it. */
  function InSections(told: seq<AutomationsProofs.Op>): (run: seq<Overlap.Section>)
    ensures |run| == |told|
  {
    seq(|told|, i requires 0 <= i < |told| =>
      match told[i]
      case Ask(t, now) => Overlap.Asks(t, now)
      case Decide(e, now) => Overlap.Decides(if i > 0 then i - 1 else 0, e, now)
      case BanTenant(t, ms, now) => Overlap.Bans(t, ms, now)
      case UnbanTenant(t, now) => Overlap.Lifts(t, now))
  }

  lemma ToldPairs(c: Automations.Config, w: World, r: Request)
    ensures
      var told := Told(c, w, r);
      && (|told| > 0 ==> told[0].Ask?)
      && (|told| > 1 ==> told[1].Decide? && told[0].tenant == told[1].e.tenant && !Automations.Banned(w.pilot, told[0].tenant, told[0].now))
  {
  }

  lemma {:induction false} ReportsFollowAsks(c: Automations.Config, w: World, ops: seq<Op>, i: nat)
    requires w.pilot == Automations.IDLE && i < |ToldIn(c, w, ops)| && ToldIn(c, w, ops)[i].Decide?
    ensures i > 0 && Overlap.Clear(c, ToldIn(c, w, ops), ToldIn(c, w, ops)[i].e.tenant, i - 1)
  {
    var before, last := ops[..|ops| - 1], ops[|ops| - 1];
    var told, all := ToldIn(c, w, before), ToldIn(c, w, ops);
    if i < |told| {
      ReportsFollowAsks(c, w, before, i);
      assert all[i] == told[i] && all[i - 1] == told[i - 1] && all[..i - 1] == told[..i - 1];
    } else {
      ToldPairs(c, Run(c, w, before), last.request);
      PilotFollows(c, w, before);
      assert i == |told| + 1 && all[..i - 1] == told;
    }
  }

  lemma SerialIsLegal(c: Automations.Config, w: World, ops: seq<Op>)
    requires w.pilot == Automations.IDLE
    ensures Overlap.Ops(InSections(ToldIn(c, w, ops))) == ToldIn(c, w, ops)
    ensures Overlap.Legal(c, InSections(ToldIn(c, w, ops)))
  {
    var told := ToldIn(c, w, ops);
    var run := InSections(told);
    assert Overlap.Ops(run) == told;
    forall i | 0 <= i < |run| && run[i].Decides?
      ensures i > 0 && run[i].ask == i - 1 && Overlap.Clear(c, told, run[i].e.tenant, i - 1)
    {
      ReportsFollowAsks(c, w, ops, i);
    }
  }

  /** Where requests do not overlap there is nothing in between, and no cooldown rests on what came
      in during another, whatever the clock does. */
  lemma CooldownsRestOnUnbanned(c: Automations.Config, w: World, ops: seq<Op>, t: string, j: nat, i: nat)
    requires w.pilot == Automations.IDLE && StormEvidence.TripAt(c, ToldIn(c, w, ops), t, j)
    requires i in StormEvidence.Evidence(c, ToldIn(c, w, ops)[..j + 1], t)
    ensures i <= j && !StormEvidence.UnderBan(c, ToldIn(c, w, ops), t, i)
  {
    var told := ToldIn(c, w, ops);
    StormEvidence.EvidenceIff(c, told[..j + 1], t, i);
    assert told[..j + 1][i] == told[i];
    SerialIsLegal(c, w, ops);
    ReportsFollowAsks(c, w, ops, i);
    Overlap.NoOverlapNoBan(c, InSections(told), t, i);
  }
}
