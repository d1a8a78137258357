module GatewayOverlap {
  // Every legal run of asks, burst reports and hands is one the gateway can have; so what holds of
  // those runs holds of it, and what fails fails.

  import opened Wrappers
  import opened Policy
  import opened Gateway
  import opened GatewayProofs
  import opened GatewaySections
  import opened Overlap
  import Automations
  import AutomationsProofs
  import StormEvidence
  import TokenBucket

  // ---- A site whose every request is refused ----------------------------------------

  /** Its tier holds one token, and its only route costs five. */
  function BookFor(tenant: string): Book {
    Book(map["free" := Tier(1.0, 1.0, None)], map["/" := Route("heavy")], map["key" := Tenant(tenant, "free")])
  }

  const ASKING := Request("key", "", "/", 0, None, false, false)

  function PlanOf(tenant: string): Policy.Plan {
    Resolve(BookFor(tenant), tenant, "free", "/").plan
  }

  function Start(): State {
    State(World(BookFor(""), map[], map[], Automations.IDLE), map[], [], [], [], [])
  }

  /** The report of a burst refusal on a plan without a cap. */
  function BurstOf(tenant: string, at: int): Automations.Event {
    EventOf(at, tenant, false, "burst", None)
  }

  ghost predicate AllBursts(run: seq<Section>) {
    forall i | 0 <= i < |run| && run[i].Decides? :: run[i].e == BurstOf(run[i].e.tenant, run[i].e.at)
  }

  lemma PlanIs(tenant: string)
    ensures Identify(BookFor(tenant), "key", "") == Tenant(tenant, "free")
    ensures Resolve(BookFor(tenant), tenant, "free", "/") == Resolved(PlanOf(tenant))
    ensures PlanOf(tenant).cost == 5.0 && PlanOf(tenant).capacity == 1.0 && PlanOf(tenant).monthlyQuota.None?
  {
  }

  lemma AlwaysRefused(jars: map<string, TokenBucket.Bucket>, now: int, tenant: string)
    ensures !TokenBucket.Check(jars, now, JarArgs(PlanOf(tenant), None)).1.allowed
  {
    PlanIs(tenant);
  }

  // ---- Building the run -------------------------------------------------------------

  /** The request that asked there waits for its meter. */
  ghost predicate Waiting(run: seq<Section>, id: nat, f: Flight) {
    && id < |run| && run[id].Asks?
    && f == Cleared(ASKING, Tenant(run[id].tenant, "free"), PlanOf(run[id].tenant), id)
  }

  ghost predicate Undecided(run: seq<Section>, m: nat, j: nat)
    requires m <= |run|
  {
    forall i | 0 <= i < m && run[i].Decides? :: run[i].ask != j
  }

  ghost predicate AllWait(run: seq<Section>, m: nat, flights: map<Id, Flight>) {
    forall id | id in flights :: id < m && Waiting(run, id, flights[id])
  }

  ghost predicate NoneLost(c: Automations.Config, run: seq<Section>, m: nat, flights: map<Id, Flight>)
    requires m <= |run|
  {
    forall j: nat | j < m && run[j].Asks? && Clear(c, Ops(run), run[j].tenant, j) && Undecided(run, m, j) :: j in flights
  }

  /** After m sections: those told there is no ban, and not decided since, are waiting. */
  ghost predicate Ready(c: Automations.Config, run: seq<Section>, m: nat, s: State)
    requires m <= |run|
  {
    && s.told == run[..m] && s.world.pilot == AutomationsProofs.Run(c, Ops(run)[..m])
    && AllWait(run, m, s.flights) && NoneLost(c, run, m, s.flights)
  }

  lemma {:induction false} ReachesMore(c: Automations.Config, s: State, actions: seq<Action>, s1: State, a: Action)
    requires Reaches(c, s, actions, s1) && Enabled(s1, a)
    ensures Reaches(c, s, actions + [a], Next(c, s1, a))
    decreases |actions|
  {
    if actions == [] {
      assert [] + [a] == [a] && [a][1..] == [];
      assert Reaches(c, Next(c, s, a), [], Next(c, s, a));
    } else {
      assert (actions + [a])[1..] == actions[1..] + [a];
      ReachesMore(c, Next(c, s, actions[0]), actions[1..], s1, a);
    }
  }

  /** What one section of the run makes of the state. */
  ghost predicate Tells(c: Automations.Config, s: State, x: Section, s': State) {
    s'.told == s.told + [x] && s'.world.pilot == AutomationsProofs.Step(c, s.world.pilot, OpOf(x))
  }

  lemma ReadyNext(c: Automations.Config, run: seq<Section>, m: nat, s: State, s': State)
    requires m < |run| && Ready(c, run, m, s) && Tells(c, s, run[m], s')
    ensures s'.told == run[..m + 1] && s'.world.pilot == AutomationsProofs.Run(c, Ops(run)[..m + 1])
  {
    AutomationsProofs.RunStep(c, Ops(run), m + 1);
  }

  lemma Enters(c: Automations.Config, s0: State, before: seq<Action>, s: State, m: nat, t: string)
    returns (actions: seq<Action>, s': State)
    requires Reaches(c, s0, before, s) && m !in s.flights
    ensures Reaches(c, s0, actions, s')
    ensures s' == s.(world := s.world.(book := BookFor(t)), flights := s.flights[m := Priced(ASKING, Tenant(t, "free"), PlanOf(t))])
  {
    PlanIs(t);
    var a1, a2, a3 := EditBook(BookFor(t)), Enter(m, ASKING), Price(m);
    var s1 := Next(c, s, a1);
    var s2 := Next(c, s1, a2);
    ReachesMore(c, s0, before, s, a1);
    ReachesMore(c, s0, before + [a1], s1, a2);
    ReachesMore(c, s0, before + [a1] + [a2], s2, a3);
    actions, s' := before + [a1] + [a2] + [a3], Next(c, s2, a3);
  }

  /** Where a request that has asked goes. */
  function Asked(s: State, m: nat, t: string, now: int): map<Id, Flight> {
    if Automations.Banned(s.world.pilot, t, now) then s.flights
    else s.flights[m := Cleared(ASKING, Tenant(t, "free"), PlanOf(t), m)]
  }

  lemma AskTells(c: Automations.Config, s: State, s1: State, m: nat, t: string, now: int)
    requires m !in s.flights && |s.told| == m
    requires s1 == s.(world := s.world.(book := BookFor(t)), flights := s.flights[m := Priced(ASKING, Tenant(t, "free"), PlanOf(t))])
    ensures
      var s' := Next(c, s1, AskBan(m, now));
      Tells(c, s, Asks(t, now), s') && s'.flights == Asked(s, m, t, now)
  {
    assert s1.flights - {m} == s.flights;
    assert s1.flights[m := Cleared(ASKING, Tenant(t, "free"), PlanOf(t), m)]
           == s.flights[m := Cleared(ASKING, Tenant(t, "free"), PlanOf(t), m)];
  }

  /** A new request asks, and is turned away or waits. */
  lemma AskAction(c: Automations.Config, s0: State, before: seq<Action>, run: seq<Section>, m: nat, s: State)
    returns (actions: seq<Action>, s': State)
    requires m < |run| && run[m].Asks? && Ready(c, run, m, s) && Reaches(c, s0, before, s)
    ensures Reaches(c, s0, actions, s') && Tells(c, s, run[m], s')
    ensures s'.flights == Asked(s, m, run[m].tenant, run[m].now)
  {
    var entered, s1 := Enters(c, s0, before, s, m, run[m].tenant);
    AskTells(c, s, s1, m, run[m].tenant, run[m].now);
    actions, s' := entered + [AskBan(m, run[m].now)], Next(c, s1, AskBan(m, run[m].now));
    ReachesMore(c, s0, entered, s1, AskBan(m, run[m].now));
  }

  /** A waiting request is refused, and reports. */
  lemma ReportAction(c: Automations.Config, s0: State, before: seq<Action>, s: State, t: string, id: nat, at: int, now: int)
    returns (actions: seq<Action>, s': State)
    requires id in s.flights && s.flights[id] == Cleared(ASKING, Tenant(t, "free"), PlanOf(t), id) && Reaches(c, s0, before, s)
    ensures Reaches(c, s0, actions, s') && Tells(c, s, Decides(id, BurstOf(t, at), now), s') && s'.flights == s.flights - {id}
  {
    PlanIs(t);
    AlwaysRefused(s.world.jars, now, t);
    var a1, a2, a3 := Meter(id, now), Pour(id, now), Report(id, at, now);
    var s1 := Next(c, s, a1);
    var s2 := Next(c, s1, a2);
    ReachesMore(c, s0, before, s, a1);
    ReachesMore(c, s0, before + [a1], s1, a2);
    ReachesMore(c, s0, before + [a1] + [a2], s2, a3);
    actions, s' := before + [a1] + [a2] + [a3], Next(c, s2, a3);
    assert s2.flights - {id} == s.flights - {id};
  }

  lemma UndecidedBefore(run: seq<Section>, m: nat, j: nat)
    requires m < |run| && Undecided(run, m + 1, j)
    ensures Undecided(run, m, j) && (run[m].Decides? ==> run[m].ask != j)
  {
  }

  /** Nobody that is still to decide is lost, if the section loses at most the one it decides. */
  lemma StillNone(c: Automations.Config, run: seq<Section>, m: nat, flights: map<Id, Flight>, after: map<Id, Flight>)
    requires m < |run| && NoneLost(c, run, m, flights)
    requires forall j: nat | j in flights && (run[m].Decides? ==> run[m].ask != j) :: j in after
    requires run[m].Asks? && Clear(c, Ops(run), run[m].tenant, m) ==> m in after
    ensures NoneLost(c, run, m + 1, after)
  {
    forall j: nat | j < m + 1 && run[j].Asks? && Clear(c, Ops(run), run[j].tenant, j) && Undecided(run, m + 1, j)
      ensures j in after
    {
      UndecidedBefore(run, m, j);
    }
  }

  lemma ClearWaits(c: Automations.Config, run: seq<Section>, m: nat, s: State)
    requires m < |run| && run[m].Asks? && s.world.pilot == AutomationsProofs.Run(c, Ops(run)[..m])
    ensures Clear(c, Ops(run), run[m].tenant, m) ==> m in Asked(s, m, run[m].tenant, run[m].now)
  {
  }

  lemma AskReady(c: Automations.Config, run: seq<Section>, m: nat, s: State, s': State)
    requires m < |run| && run[m].Asks? && Ready(c, run, m, s) && Tells(c, s, run[m], s')
    requires s'.flights == Asked(s, m, run[m].tenant, run[m].now)
    ensures Ready(c, run, m + 1, s')
  {
    ReadyNext(c, run, m, s, s');
    ClearWaits(c, run, m, s);
    StillNone(c, run, m, s.flights, s'.flights);
  }

  /** A report, or a hand. */
  lemma OtherReady(c: Automations.Config, run: seq<Section>, m: nat, s: State, s': State)
    requires m < |run| && !run[m].Asks? && Ready(c, run, m, s) && Tells(c, s, run[m], s')
    requires s'.flights == if run[m].Decides? then s.flights - {run[m].ask} else s.flights
    ensures Ready(c, run, m + 1, s')
  {
    ReadyNext(c, run, m, s, s');
    StillNone(c, run, m, s.flights, s'.flights);
  }

  lemma ReporterWaits(c: Automations.Config, run: seq<Section>, m: nat, s: State)
    requires Legal(c, run) && m < |run| && run[m].Decides? && Ready(c, run, m, s)
    ensures run[m].ask in s.flights
    ensures s.flights[run[m].ask] == Cleared(ASKING, Tenant(run[m].e.tenant, "free"), PlanOf(run[m].e.tenant), run[m].ask)
  {
    var j := run[m].ask;
    assert Ops(run)[j] == OpOf(run[j]) && run[j].Asks? && run[j].tenant == run[m].e.tenant;
    assert Undecided(run, m, j);
  }

  lemma {:induction false} Built(c: Automations.Config, run: seq<Section>, m: nat) returns (actions: seq<Action>, s: State)
    requires Legal(c, run) && AllBursts(run) && m <= |run|
    ensures Reaches(c, Start(), actions, s) && Ready(c, run, m, s)
    decreases m
  {
    if m == 0 {
      actions, s := [], Start();
    } else {
      var before, was := Built(c, run, m - 1);
      match run[m - 1]
      case Asks(_, _) =>
        actions, s := AskAction(c, Start(), before, run, m - 1, was);
        AskReady(c, run, m - 1, was, s);
      case Decides(ask, e, now) =>
        ReporterWaits(c, run, m - 1, was);
        actions, s := ReportAction(c, Start(), before, was, e.tenant, ask, e.at, now);
        OtherReady(c, run, m - 1, was, s);
      case Bans(t, ms, now) =>
        actions, s := before + [HandBan(t, ms, now)], Next(c, was, HandBan(t, ms, now));
        ReachesMore(c, Start(), before, was, HandBan(t, ms, now));
        OtherReady(c, run, m - 1, was, s);
      case Lifts(t, now) =>
        actions, s := before + [HandLift(t, now)], Next(c, was, HandLift(t, now));
        ReachesMore(c, Start(), before, was, HandLift(t, now));
        OtherReady(c, run, m - 1, was, s);
    }
  }

  /** Any legal run in which requests ask, and report burst refusals, is what a gateway tells its
      autopilot in some run from a fresh start. */
  lemma EveryRunIsTheGateways(c: Automations.Config, run: seq<Section>) returns (actions: seq<Action>, s: State)
    requires Legal(c, run) && AllBursts(run)
    ensures Fresh(Start()) && Reaches(c, Start(), actions, s) && s.told == run
  {
    actions, s := Built(c, run, |run|);
    assert run[..|run|] == run;
  }

  // ---- What follows -----------------------------------------------------------------

  /** In no run of the gateway does a cooldown of a client left alone rest on a block decided under a
      ban, whatever overlaps. */
  ghost predicate GatewayNeverRests(c: Automations.Config, latency: nat) {
    forall s, actions, s', t, n: nat, i: nat |
      && Fresh(s) && Reaches(c, s, actions, s')
      && AutomationsProofs.ClocksForward(Ops(s'.told)) && Prompt(s'.told, t, latency) && NoHands(s'.told, t)
      && StormEvidence.TripAt(c, Ops(s'.told), t, n) :: !Rests(c, Ops(s'.told), t, n, i)
  }

  lemma LeakIsBursts(sh: Shape, tenant: string)
    ensures AllBursts(Leak(sh, BurstOf(tenant, 0)))
  {
  }

  /** That is so exactly when the cooldown outlasts the window and the longest a request takes from
      its ask to its report. */
  lemma GatewayNeverRestsIff(c: Automations.Config, latency: nat)
    requires c.windowMs > 0
    ensures GatewayNeverRests(c, latency) <==> c.cooldownMs <= 0 || c.cooldownMs >= c.windowMs + latency
  {
    if c.cooldownMs <= 0 || c.cooldownMs >= c.windowMs + latency {
      forall s, actions, s', t, n: nat, i: nat |
        && Fresh(s) && Reaches(c, s, actions, s')
        && AutomationsProofs.ClocksForward(Ops(s'.told)) && Prompt(s'.told, t, latency) && NoHands(s'.told, t)
        && StormEvidence.TripAt(c, Ops(s'.told), t, n)
        ensures !Rests(c, Ops(s'.told), t, n, i)
      {
        PilotFollows(c, s, actions, s');
        LongCooldownForgets(c, s'.told, t, n, i, latency);
      }
    } else {
      var sh := ShapeFor(c, BurstOf("", 0), latency);
      var actions, s' := LeakingGateway(c, sh, latency);
    }
  }

  /** The client that is cooled down twice for one burst is a client of the gateway. */
  lemma LeakingGateway(c: Automations.Config, sh: Shape, latency: nat) returns (actions: seq<Action>, s': State)
    requires Leaky(c, sh, BurstOf("", 0)) && !sh.hand && PromptShape(sh, latency)
    ensures Reaches(c, Start(), actions, s') && !GatewayNeverRests(c, latency)
  {
    var e := BurstOf("", 0);
    var run, k, n := Leak(sh, e), 3 * sh.q, 4 * sh.q + 2;
    LeakRun(c, sh, e, latency, run, k, n);
    LeakAlone(c, sh, e, run, k, n);
    LeakIsBursts(sh, "");
    actions, s' := EveryRunIsTheGateways(c, run);
    assert Rests(c, Ops(s'.told), "", n, k + 1);
  }
}
