module GatewaySections {
  // The gateway as it runs: a request is six sections, and others' come in between.

  import opened Wrappers
  import opened Policy
  import opened Gateway
  import opened GatewayProofs
  import opened Overlap
  import Automations
  import AutomationsProofs
  import JanitorBound
  import MonthlyQuota
  import MonthlyQuotaProofs
  import StormEvidence
  import TokenBucket
  import TokenBucketProofs

  // ---- The machine ------------------------------------------------------------------

  type Id = nat

  /** How far a request has got: who asks, on what plan, cleared of a ban (and where in the run it
      asked), what the month said, what the jar said. */
  datatype Flight =
    | Known(r: Request, who: Tenant)
    | Priced(r: Request, who: Tenant, plan: Plan)
    | Cleared(r: Request, who: Tenant, plan: Plan, ask: nat)
    | Metered(r: Request, who: Tenant, plan: Plan, ask: nat, month: Option<MonthlyQuota.Verdict>)
    | Filled(r: Request, who: Tenant, plan: Plan, ask: nat, month: Option<MonthlyQuota.Verdict>, jar: TokenBucket.Decision)

  datatype Answer = Answer(id: Id, tenant: string, decision: Decision)

  /** What has been asked, in order: of the autopilot, of the plan meters and of the jars, where the
      janitor's passes are noted too. */
  datatype State = State(
    world: World,
    flights: map<Id, Flight>,
    answers: seq<Answer>,
    told: seq<Section>,
    charges: seq<MonthlyQuota.Charge>,
    checks: seq<JanitorBound.Act>)

  /** One section of one request, under its own clock, or something people or others do. */
  datatype Action =
    | Enter(id: Id, r: Request)
    | Price(id: Id)
    | AskBan(id: Id, now: int)
    | Meter(id: Id, now: int)
    | Pour(id: Id, now: int)
    | Report(id: Id, at: int, now: int)
    | AskAbout(tenant: string, now: int)
    | HandBan(tenant: string, ms: int, now: int)
    | HandLift(tenant: string, now: int)
    | EditBook(book: Book)
    | SweepJars(part: set<string>, now: int, idleFor: int)
    | CallModel(charge: MonthlyQuota.Charge)

  predicate Enabled(s: State, a: Action) {
    match a
    case Enter(id, _) => id !in s.flights
    case Price(id) => id in s.flights && s.flights[id].Known?
    case AskBan(id, _) => id in s.flights && s.flights[id].Priced?
    case Meter(id, _) => id in s.flights && s.flights[id].Cleared?
    case Pour(id, _) => id in s.flights && s.flights[id].Metered?
    case Report(id, _, _) => id in s.flights && s.flights[id].Filled?
    case _ => true
  }

  function Landed(s: State, id: Id, tenant: string, d: Decision): State {
    s.(flights := s.flights - {id}, answers := s.answers + [Answer(id, tenant, d)])
  }

  /** The autopilot is asked or told something. */
  function Tell(c: Automations.Config, s: State, x: Section): State {
    s.(world := s.world.(pilot := AutomationsProofs.Step(c, s.world.pilot, OpOf(x))), told := s.told + [x])
  }

  function AfterAsk(c: Automations.Config, s: State, id: Id, f: Flight, now: int): State
    requires f.Priced?
  {
    var left := Automations.Remaining(s.world.pilot, f.who.tenantId, now);
    var s1 := Tell(c, s, Asks(f.who.tenantId, now));
    if left > 0 then Landed(s1, id, f.who.tenantId, BanDecision(f.plan, left))
    else s1.(flights := s.flights[id := Cleared(f.r, f.who, f.plan, |s.told|)])
  }

  function AfterMeter(c: Automations.Config, s: State, id: Id, f: Flight, now: int): State
    requires f.Cleared?
  {
    if f.plan.monthlyQuota.None? then s.(flights := s.flights[id := Metered(f.r, f.who, f.plan, f.ask, None)])
    else if f.r.meterDown then Landed(s, id, f.who.tenantId, FailOpen(f.plan.capacity, f.plan.capacity, f.plan.cost))
    else
      var (meters, v) := MonthlyQuota.Charged(s.world.meters, ChargeOf(c, f.plan, now));
      s.(world := s.world.(meters := meters), charges := s.charges + [ChargeOf(c, f.plan, now)],
         flights := s.flights[id := Metered(f.r, f.who, f.plan, f.ask, Some(v))])
  }

  function AfterPour(s: State, id: Id, f: Flight, now: int): State
    requires f.Metered?
  {
    if f.month.Some? && !f.month.value.allowed then
      s.(flights := s.flights[id := Filled(f.r, f.who, f.plan, f.ask, f.month, TokenBucket.Decision(false, 0))])
    else if f.r.jarDown then
      Landed(s, id, f.who.tenantId, FailOpen(LaneCapacity(f.plan, f.r.lane), f.plan.capacity, f.plan.cost))
    else
      var (jars, d) := TokenBucket.Check(s.world.jars, now, JarArgs(f.plan, f.r.lane));
      s.(world := s.world.(jars := jars), checks := s.checks + [JanitorBound.Ask(now, JarArgs(f.plan, f.r.lane))],
         flights := s.flights[id := Filled(f.r, f.who, f.plan, f.ask, f.month, d)])
  }

  function EventFor(f: Flight, at: int): Automations.Event
    requires f.Filled?
  {
    var reason := ReasonFor(f.month, f.jar.allowed);
    EventOf(at, f.who.tenantId, reason == "", reason, f.month)
  }

  function AfterReport(c: Automations.Config, s: State, id: Id, f: Flight, at: int, now: int): State
    requires f.Filled?
  {
    Landed(Tell(c, s, Decides(f.ask, EventFor(f, at), now)), id, f.who.tenantId,
           Settled(c, s.world, f.r, f.who.tenantId, f.plan, f.month, f.jar).1)
  }

  function Next(c: Automations.Config, s: State, a: Action): State
    requires Enabled(s, a)
  {
    match a
    case Enter(id, r) => s.(flights := s.flights[id := Known(r, Identify(s.world.book, r.apiKey, r.ip))])
    case Price(id) =>
      var f := s.flights[id];
      (match Resolve(s.world.book, f.who.tenantId, f.who.tier, f.r.route)
       case Resolved(plan) => s.(flights := s.flights[id := Priced(f.r, f.who, plan)])
       case _ => Landed(s, id, f.who.tenantId, FailOpen(0.0, 0.0, 0.0)))
    case AskBan(id, now) => AfterAsk(c, s, id, s.flights[id], now)
    case Meter(id, now) => AfterMeter(c, s, id, s.flights[id], now)
    case Pour(id, now) => AfterPour(s, id, s.flights[id], now)
    case Report(id, at, now) => AfterReport(c, s, id, s.flights[id], at, now)
    case AskAbout(t, now) => Tell(c, s, Asks(t, now))
    case HandBan(t, ms, now) => Tell(c, s, Bans(t, ms, now))
    case HandLift(t, now) => Tell(c, s, Lifts(t, now))
    case EditBook(book) => s.(world := s.world.(book := book))
    case SweepJars(part, now, idleFor) =>
      s.(world := s.world.(jars := TokenBucket.SweepPart(s.world.jars, part, now, idleFor)),
         checks := s.checks + [JanitorBound.Pass(part, now, idleFor)])
    case CallModel(x) =>
      s.(world := s.world.(meters := MonthlyQuota.Charged(s.world.meters, x).0), charges := s.charges + [x])
  }

  ghost predicate Reaches(c: Automations.Config, s: State, actions: seq<Action>, s': State)
    decreases |actions|
  {
    if actions == [] then s == s' else Enabled(s, actions[0]) && Reaches(c, Next(c, s, actions[0]), actions[1..], s')
  }

  /** A server that has just started. */
  predicate Fresh(s: State) {
    s.world.pilot == Automations.IDLE && s.flights == map[] && s.answers == [] && s.told == [] && s.charges == [] && s.checks == []
  }

  // ---- What the autopilot has been told ---------------------------------------------

  predicate HasAsked(f: Flight) {
    f.Cleared? || f.Metered? || f.Filled?
  }

  /** A request in flight asked, was told there is no ban, and has not reported. */
  ghost predicate Pends(c: Automations.Config, told: seq<Section>, f: Flight) {
    HasAsked(f) ==>
      && Clear(c, Ops(told), f.who.tenantId, f.ask)
      && (forall i | 0 <= i < |told| && told[i].Decides? :: told[i].ask != f.ask)
  }

  ghost predicate Apart(s: State) {
    forall a, b | a in s.flights && b in s.flights && a != b && HasAsked(s.flights[a]) && HasAsked(s.flights[b]) ::
      s.flights[a].ask != s.flights[b].ask
  }

  /** The requests of a tenant that were answered "burst". */
  function BurstAnswers(answers: seq<Answer>, tenant: string): nat {
    if answers == [] then 0
    else
      var last := answers[|answers| - 1];
      BurstAnswers(answers[..|answers| - 1], tenant) + if last.tenant == tenant && last.decision.reason == "burst" then 1 else 0
  }

  ghost predicate Follows(c: Automations.Config, s: State) {
    && s.world.pilot == AutomationsProofs.Run(c, Ops(s.told))
    && Legal(c, s.told) && Apart(s)
    && (forall id | id in s.flights :: Pends(c, s.told, s.flights[id]))
    && (forall t :: AutomationsProofs.HitCount(Ops(s.told), t) == BurstAnswers(s.answers, t))
  }

  lemma OpsMore(told: seq<Section>, x: Section)
    ensures Ops(told + [x]) == Ops(told) + [OpOf(x)]
    ensures Ops(told + [x])[..|told|] == Ops(told)
  {
  }

  lemma ClearStays(c: Automations.Config, told: seq<Section>, x: Section, t: string, j: nat)
    requires j < |told|
    ensures Clear(c, Ops(told + [x]), t, j) <==> Clear(c, Ops(told), t, j)
  {
    OpsMore(told, x);
    assert Ops(told + [x])[..j] == Ops(told)[..j];
  }

  /** One more section: legal as long as a report is of a request that pends. */
  lemma LegalMore(c: Automations.Config, told: seq<Section>, x: Section)
    requires Legal(c, told)
    requires x.Decides? ==> Clear(c, Ops(told), x.e.tenant, x.ask) && forall i | 0 <= i < |told| && told[i].Decides? :: told[i].ask != x.ask
    ensures Legal(c, told + [x])
  {
    var more := told + [x];
    forall i | 0 <= i < |more| && more[i].Decides?
      ensures more[i].ask < i && Clear(c, Ops(more), more[i].e.tenant, more[i].ask)
    {
      if i < |told| {
        assert more[i] == told[i];
        ClearStays(c, told, x, told[i].e.tenant, told[i].ask);
      } else {
        ClearStays(c, told, x, x.e.tenant, x.ask);
      }
    }
  }

  lemma PilotMore(c: Automations.Config, told: seq<Section>, x: Section, p: Automations.Pilot)
    requires p == AutomationsProofs.Run(c, Ops(told))
    ensures AutomationsProofs.Step(c, p, OpOf(x)) == AutomationsProofs.Run(c, Ops(told + [x]))
  {
    OpsMore(told, x);
  }

  lemma HitsMore(told: seq<Section>, x: Section, t: string)
    ensures AutomationsProofs.HitCount(Ops(told + [x]), t)
            == AutomationsProofs.HitCount(Ops(told), t) + if AutomationsProofs.Hit(OpOf(x), t) then 1 else 0
  {
    OpsMore(told, x);
  }

  lemma PendsStill(c: Automations.Config, told: seq<Section>, x: Section, f: Flight)
    requires Pends(c, told, f) && (x.Decides? && HasAsked(f) ==> x.ask != f.ask)
    ensures Pends(c, told + [x], f)
  {
    if HasAsked(f) {
      ClearStays(c, told, x, f.who.tenantId, f.ask);
    }
  }

  lemma BurstMore(answers: seq<Answer>, x: Answer, t: string)
    ensures BurstAnswers(answers + [x], t)
            == BurstAnswers(answers, t) + if x.tenant == t && x.decision.reason == "burst" then 1 else 0
  {
    assert (answers + [x])[..|answers|] == answers;
  }

  /** Being asked, or a ban or a lift by hand. */
  lemma TellKeeps(c: Automations.Config, s: State, x: Section)
    requires Follows(c, s) && !x.Decides?
    ensures Follows(c, Tell(c, s, x))
  {
    PilotMore(c, s.told, x, s.world.pilot);
    LegalMore(c, s.told, x);
    forall id | id in s.flights
      ensures Pends(c, s.told + [x], s.flights[id])
    {
      PendsStill(c, s.told, x, s.flights[id]);
    }
    forall t
      ensures AutomationsProofs.HitCount(Ops(s.told + [x]), t) == BurstAnswers(s.answers, t)
    {
      HitsMore(s.told, x, t);
    }
  }

  /** A request that is answered without a report, or moves on without asking. */
  lemma LandKeeps(c: Automations.Config, s: State, id: Id, tenant: string, d: Decision)
    requires Follows(c, s) && d.reason != "burst"
    ensures Follows(c, Landed(s, id, tenant, d))
  {
    forall t
      ensures AutomationsProofs.HitCount(Ops(s.told), t) == BurstAnswers(s.answers + [Answer(id, tenant, d)], t)
    {
      BurstMore(s.answers, Answer(id, tenant, d), t);
    }
  }

  lemma MoveKeeps(c: Automations.Config, s: State, s': State, id: Id, f: Flight)
    requires Follows(c, s) && s'.told == s.told && s'.answers == s.answers && s'.world.pilot == s.world.pilot
    requires s'.flights == s.flights[id := f]
    requires HasAsked(f) ==> id in s.flights && HasAsked(s.flights[id]) && s.flights[id].ask == f.ask && s.flights[id].who == f.who
    ensures Follows(c, s')
  {
    forall j | j in s'.flights
      ensures Pends(c, s'.told, s'.flights[j])
    {
      if j == id && HasAsked(f) {
        assert Pends(c, s.told, s.flights[id]);
      }
    }
  }

  lemma AskKeeps(c: Automations.Config, s: State, id: Id, now: int)
    requires Follows(c, s) && id in s.flights && s.flights[id].Priced?
    ensures Follows(c, AfterAsk(c, s, id, s.flights[id], now))
  {
    var f, x := s.flights[id], Asks(s.flights[id].who.tenantId, now);
    var s1 := Tell(c, s, x);
    TellKeeps(c, s, x);
    if Automations.Remaining(s.world.pilot, f.who.tenantId, now) > 0 {
      LandKeeps(c, s1, id, f.who.tenantId, BanDecision(f.plan, Automations.Remaining(s.world.pilot, f.who.tenantId, now)));
    } else {
      ClearNow(c, s, f.who.tenantId, now);
      AskIsNew(c, s, s1, id, Cleared(f.r, f.who, f.plan, |s.told|));
    }
  }

  lemma ClearNow(c: Automations.Config, s: State, t: string, now: int)
    requires Follows(c, s) && Automations.Remaining(s.world.pilot, t, now) <= 0
    ensures Clear(c, Ops(s.told + [Asks(t, now)]), t, |s.told|)
  {
    OpsMore(s.told, Asks(t, now));
  }

  lemma AsksArePast(c: Automations.Config, s: State, id: Id)
    requires Follows(c, s) && id in s.flights && HasAsked(s.flights[id])
    ensures s.flights[id].ask < |s.told|
  {
    assert Pends(c, s.told, s.flights[id]);
  }

  /** An ask of its own, later than any other's. */
  lemma AskIsNew(c: Automations.Config, s: State, s1: State, id: Id, f: Flight)
    requires Follows(c, s) && Follows(c, s1) && s1.flights == s.flights && |s1.told| == |s.told| + 1
    requires HasAsked(f) && f.ask == |s.told| && Clear(c, Ops(s1.told), f.who.tenantId, f.ask)
    ensures Follows(c, s1.(flights := s.flights[id := f]))
  {
    var s' := s1.(flights := s.flights[id := f]);
    assert Pends(c, s1.told, f) by {
      NoneReports(c, s1.told, f.ask);
    }
    assert Apart(s') by {
      forall j | j in s.flights && HasAsked(s.flights[j])
        ensures s.flights[j].ask < |s.told|
      {
        AsksArePast(c, s, j);
      }
    }
  }

  lemma NoneReports(c: Automations.Config, told: seq<Section>, j: nat)
    requires Legal(c, told) && |told| <= j + 1
    ensures forall i | 0 <= i < |told| && told[i].Decides? :: told[i].ask != j
  {
  }

  lemma ReasonIsBurst(c: Automations.Config, f: Flight, at: int)
    requires f.Filled?
    ensures Automations.Blocked(EventFor(f, at)) <==> ReasonFor(f.month, f.jar.allowed) == "burst"
    ensures EventFor(f, at).tenant == f.who.tenantId
  {
  }

  lemma ReportKeeps(c: Automations.Config, s: State, id: Id, at: int, now: int)
    requires Follows(c, s) && id in s.flights && s.flights[id].Filled?
    ensures Follows(c, AfterReport(c, s, id, s.flights[id], at, now))
  {
    var f := s.flights[id];
    var x := Decides(f.ask, EventFor(f, at), now);
    var d := Settled(c, s.world, f.r, f.who.tenantId, f.plan, f.month, f.jar).1;
    assert Pends(c, s.told, f);
    PilotMore(c, s.told, x, s.world.pilot);
    LegalMore(c, s.told, x);
    forall j | j in s.flights && j != id
      ensures Pends(c, s.told + [x], s.flights[j])
    {
      PendsStill(c, s.told, x, s.flights[j]);
    }
    ReasonIsBurst(c, f, at);
    forall t
      ensures AutomationsProofs.HitCount(Ops(s.told + [x]), t) == BurstAnswers(s.answers + [Answer(id, f.who.tenantId, d)], t)
    {
      HitsMore(s.told, x, t);
      BurstMore(s.answers, Answer(id, f.who.tenantId, d), t);
    }
  }

  lemma MeterKeeps(c: Automations.Config, s: State, id: Id, now: int)
    requires Follows(c, s) && id in s.flights && s.flights[id].Cleared?
    ensures Follows(c, AfterMeter(c, s, id, s.flights[id], now))
  {
    var f, s' := s.flights[id], AfterMeter(c, s, id, s.flights[id], now);
    if f.plan.monthlyQuota.Some? && f.r.meterDown {
      LandKeeps(c, s, id, f.who.tenantId, FailOpen(f.plan.capacity, f.plan.capacity, f.plan.cost));
    } else {
      MoveKeeps(c, s, s', id, s'.flights[id]);
    }
  }

  lemma PourKeeps(c: Automations.Config, s: State, id: Id, now: int)
    requires Follows(c, s) && id in s.flights && s.flights[id].Metered?
    ensures Follows(c, AfterPour(s, id, s.flights[id], now))
  {
    var f, s' := s.flights[id], AfterPour(s, id, s.flights[id], now);
    if !(f.month.Some? && !f.month.value.allowed) && f.r.jarDown {
      LandKeeps(c, s, id, f.who.tenantId, FailOpen(LaneCapacity(f.plan, f.r.lane), f.plan.capacity, f.plan.cost));
    } else {
      MoveKeeps(c, s, s', id, s'.flights[id]);
    }
  }

  lemma PriceKeeps(c: Automations.Config, s: State, id: Id)
    requires Follows(c, s) && Enabled(s, Price(id))
    ensures Follows(c, Next(c, s, Price(id)))
  {
    var f, s' := s.flights[id], Next(c, s, Price(id));
    if Resolve(s.world.book, f.who.tenantId, f.who.tier, f.r.route).Resolved? {
      MoveKeeps(c, s, s', id, s'.flights[id]);
    } else {
      LandKeeps(c, s, id, f.who.tenantId, FailOpen(0.0, 0.0, 0.0));
    }
  }

  lemma StepFollows(c: Automations.Config, s: State, a: Action)
    requires Follows(c, s) && Enabled(s, a)
    ensures Follows(c, Next(c, s, a))
  {
    match a
    case Enter(id, r) => MoveKeeps(c, s, Next(c, s, a), id, Known(r, Identify(s.world.book, r.apiKey, r.ip)));
    case Price(id) => PriceKeeps(c, s, id);
    case AskBan(id, now) => AskKeeps(c, s, id, now);
    case Meter(id, now) => MeterKeeps(c, s, id, now);
    case Pour(id, now) => PourKeeps(c, s, id, now);
    case Report(id, at, now) => ReportKeeps(c, s, id, at, now);
    case AskAbout(t, now) => TellKeeps(c, s, Asks(t, now));
    case HandBan(t, ms, now) => TellKeeps(c, s, Bans(t, ms, now));
    case HandLift(t, now) => TellKeeps(c, s, Lifts(t, now));
    case _ =>
  }

  lemma {:induction false} RunFollows(c: Automations.Config, s: State, actions: seq<Action>, s': State)
    requires Follows(c, s) && Reaches(c, s, actions, s')
    ensures Follows(c, s')
    decreases |actions|
  {
    if actions != [] {
      StepFollows(c, s, actions[0]);
      RunFollows(c, Next(c, s, actions[0]), actions[1..], s');
    }
  }

  /** However requests interleave, with people's bans and edits of the rulebook among them, the
      autopilot is the autopilot alone fed what it was asked and told; every report is of a
      request that had asked and been told there is no ban, and none reports twice. */
  lemma PilotFollows(c: Automations.Config, s: State, actions: seq<Action>, s': State)
    requires Fresh(s) && Reaches(c, s, actions, s')
    ensures s'.world.pilot == AutomationsProofs.Run(c, Ops(s'.told)) && Legal(c, s'.told)
  {
    assert Ops([]) == [];
    RunFollows(c, s, actions, s');
  }

  /** A client is only cooled down for what it was refused, however its requests overlap: the
      threshold times its cooldowns is at most the times it was answered "burst". */
  lemma CooldownsCostRefusals(c: Automations.Config, s: State, actions: seq<Action>, s': State, tenant: string)
    requires Fresh(s) && Reaches(c, s, actions, s')
    ensures c.threshold * AutomationsProofs.TripCount(c, Ops(s'.told), tenant) + |Automations.Log(s'.world.pilot, tenant)|
            <= BurstAnswers(s'.answers, tenant)
  {
    assert Ops([]) == [];
    RunFollows(c, s, actions, s');
    AutomationsProofs.StormConservation(c, Ops(s'.told), tenant);
  }

  /** A cooldown that follows another, of a client nobody banned in between, rests on no more blocks
      decided under a ban than the client had requests in flight at the first. */
  lemma CooldownsRestOnInFlight(c: Automations.Config, s: State, actions: seq<Action>, s': State, t: string, k: nat, n: nat)
    requires Fresh(s) && Reaches(c, s, actions, s') && k < n < |s'.told|
    requires StormEvidence.TripAt(c, Ops(s'.told), t, k) && StormEvidence.TripAt(c, Ops(s'.told), t, n)
    requires NoSetBetween(c, Ops(s'.told), t, k, n)
    ensures |RestsOn(c, s'.told, t, n)| <= |InFlight(c, s'.told, t, k)|
  {
    PilotFollows(c, s, actions, s');
    RestsOnAtMostInFlight(c, s'.told, t, k, n);
  }

  // ---- The stores -------------------------------------------------------------------

  /** The meters and the jars are what their own sections made of them. */
  ghost predicate Stocked(s: State, meters: map<string, MonthlyQuota.Meter>, jars: map<string, TokenBucket.Bucket>,
                          t1: int, key: string) {
    && s.world.meters == MonthlyQuotaProofs.Run(meters, s.charges)
    && s.world.jars == JanitorBound.Run(jars, t1, s.checks, key).jars
  }

  lemma ChargedOnce(meters: map<string, MonthlyQuota.Meter>, cs: seq<MonthlyQuota.Charge>, x: MonthlyQuota.Charge)
    ensures MonthlyQuotaProofs.Run(meters, cs + [x]) == MonthlyQuota.Charged(MonthlyQuotaProofs.Run(meters, cs), x).0
  {
    assert (cs + [x])[..|cs|] == cs;
  }

  lemma MeterStocks(c: Automations.Config, s: State, id: Id, now: int, meters: map<string, MonthlyQuota.Meter>,
                    jars: map<string, TokenBucket.Bucket>, t1: int, key: string)
    requires Stocked(s, meters, jars, t1, key) && id in s.flights && s.flights[id].Cleared?
    ensures Stocked(AfterMeter(c, s, id, s.flights[id], now), meters, jars, t1, key)
  {
    var f := s.flights[id];
    if f.plan.monthlyQuota.Some? && !f.r.meterDown {
      ChargedOnce(meters, s.charges, ChargeOf(c, f.plan, now));
    }
  }

  lemma ActStocks(s: State, s': State, act: JanitorBound.Act, meters: map<string, MonthlyQuota.Meter>,
                  jars: map<string, TokenBucket.Bucket>, t1: int, key: string)
    requires Stocked(s, meters, jars, t1, key) && s'.checks == s.checks + [act]
    requires s'.charges == s.charges && s'.world.meters == s.world.meters
    requires s'.world.jars == match act
                              case Ask(now, a) => TokenBucket.Check(s.world.jars, now, a).0
                              case Pass(part, now, idleFor) => TokenBucket.SweepPart(s.world.jars, part, now, idleFor)
    ensures Stocked(s', meters, jars, t1, key)
  {
    JanitorBound.OneMore(JanitorBound.Ledger(jars, t1, 0.0, 0), s.checks, act, key);
  }

  lemma PourStocks(s: State, id: Id, now: int, meters: map<string, MonthlyQuota.Meter>,
                   jars: map<string, TokenBucket.Bucket>, t1: int, key: string)
    requires Stocked(s, meters, jars, t1, key) && id in s.flights && s.flights[id].Metered?
    ensures Stocked(AfterPour(s, id, s.flights[id], now), meters, jars, t1, key)
  {
    var f, s' := s.flights[id], AfterPour(s, id, s.flights[id], now);
    if s'.checks != s.checks {
      ActStocks(s, s', JanitorBound.Ask(now, JarArgs(f.plan, f.r.lane)), meters, jars, t1, key);
    }
  }

  lemma StepStocks(c: Automations.Config, s: State, a: Action, meters: map<string, MonthlyQuota.Meter>,
                   jars: map<string, TokenBucket.Bucket>, t1: int, key: string)
    requires Stocked(s, meters, jars, t1, key) && Enabled(s, a)
    ensures Stocked(Next(c, s, a), meters, jars, t1, key)
  {
    match a
    case Meter(id, now) => MeterStocks(c, s, id, now, meters, jars, t1, key);
    case Pour(id, now) => PourStocks(s, id, now, meters, jars, t1, key);
    case SweepJars(part, now, idleFor) =>
      ActStocks(s, Next(c, s, a), JanitorBound.Pass(part, now, idleFor), meters, jars, t1, key);
    case CallModel(x) => ChargedOnce(meters, s.charges, x);
    case _ =>
  }

  lemma {:induction false} RunStocks(c: Automations.Config, s: State, actions: seq<Action>, s': State,
                                     meters: map<string, MonthlyQuota.Meter>, jars: map<string, TokenBucket.Bucket>,
                                     t1: int, key: string)
    requires Stocked(s, meters, jars, t1, key) && Reaches(c, s, actions, s')
    ensures Stocked(s', meters, jars, t1, key)
    decreases |actions|
  {
    if actions != [] {
      StepStocks(c, s, actions[0], meters, jars, t1, key);
      RunStocks(c, Next(c, s, actions[0]), actions[1..], s', meters, jars, t1, key);
    }
  }

  /** However requests and calls to a model interleave, every meter is exactly what its plan let through
      in its month, by the charges in the order their sections ran. */
  lemma MetersAreSpend(c: Automations.Config, s: State, actions: seq<Action>, s': State, key: string)
    requires Fresh(s) && s.world.meters == map[] && Reaches(c, s, actions, s') && MonthlyQuotaProofs.MonthsPass(s'.charges)
    ensures
      var cs, m := s'.charges, s'.world.meters;
      var last := MonthlyQuotaProofs.LastOf(cs, key);
      if last < 0 then key !in m
      else key in m && m[key] == MonthlyQuota.Meter(cs[last].month, MonthlyQuotaProofs.Spent(map[], cs, key, cs[last].month))
  {
    RunStocks(c, s, actions, s', map[], s.world.jars, 0, key);
    MonthlyQuotaProofs.MeterIsSpend(s'.charges, key);
  }

  /** And a jar lets through no more than its capacity, the refill of the interval and, for each time
      the janitor took it, what the wait does not refill; its sections being in the order of their
      clocks, whatever the plans and lanes below these ceilings. */
  lemma JarsWithinBound(c: Automations.Config, s: State, actions: seq<Action>, s': State, key: string, capacity: real,
                        rate: real, idle: nat, t1: int, t2: int)
    requires Fresh(s) && Reaches(c, s, actions, s') && TokenBucketProofs.Fine(s.world.jars, t1)
    requires t1 <= t2 && 0.0 <= capacity && 0.0 <= rate
    requires JanitorBound.AllKept(s'.checks, capacity, rate, idle, t1, t2)
    ensures
      var l := JanitorBound.Run(s.world.jars, t1, s'.checks, key);
      var bound := TokenBucketProofs.Allowance(capacity, rate, t1, t2);
      && l.jars == s'.world.jars && TokenBucketProofs.Fine(s'.world.jars, t2)
      && l.spent <= bound + JanitorBound.Times(l.swept, JanitorBound.Refund(capacity, rate, idle))
      && (capacity <= TokenBucket.Accrued(idle, rate) || l.swept == 0 ==> l.spent <= bound)
  {
    RunStocks(c, s, actions, s', s.world.meters, s.world.jars, t1, key);
    JanitorBound.SweptBound(s.world.jars, s'.checks, key, capacity, rate, idle, t1, t2);
    assert JanitorBound.Times(JanitorBound.Run(s.world.jars, t1, s'.checks, key).swept, 0.0) == 0.0;
    assert JanitorBound.Times(0, JanitorBound.Refund(capacity, rate, idle)) == 0.0;
  }

  // ---- One request at a time --------------------------------------------------------

  /** The next section of a request in flight, all of them under one clock. */
  function NextOf(f: Flight, id: Id, now: int): Action {
    match f
    case Known(_, _) => Price(id)
    case Priced(_, _, _) => AskBan(id, now)
    case Cleared(_, _, _, _) => Meter(id, now)
    case Metered(_, _, _, _, _) => Pour(id, now)
    case Filled(_, _, _, _, _, _) => Report(id, now, now)
  }

  function Go(c: Automations.Config, s: State, id: Id, now: int, n: nat): State
    decreases n
  {
    if n == 0 || id !in s.flights then s else Go(c, Next(c, s, NextOf(s.flights[id], id, now)), id, now, n - 1)
  }

  /** From here the request is answered, as the whole decision would from what it has so far. */
  ghost predicate Lands(c: Automations.Config, s: State, id: Id, tenant: string, now: int, n: nat,
                        out: (World, Gateway.Decision)) {
    var s' := Go(c, s, id, now, n);
    && s'.world == out.0 && s'.flights == s.flights - {id} && s'.answers == s.answers + [Answer(id, tenant, out.1)]
  }

  lemma GoOne(c: Automations.Config, s: State, id: Id, now: int, n: nat, s1: State, tenant: string,
              out: (World, Gateway.Decision))
    requires id in s.flights && s1 == Next(c, s, NextOf(s.flights[id], id, now))
    requires s1.flights - {id} == s.flights - {id} && s1.answers == s.answers && Lands(c, s1, id, tenant, now, n, out)
    ensures Lands(c, s, id, tenant, now, n + 1, out)
  {
  }

  lemma GoDone(c: Automations.Config, s: State, id: Id, now: int, n: nat, tenant: string, out: (World, Gateway.Decision))
    requires id in s.flights
    requires
      var s1 := Next(c, s, NextOf(s.flights[id], id, now));
      s1.world == out.0 && s1.flights == s.flights - {id} && s1.answers == s.answers + [Answer(id, tenant, out.1)]
    ensures Lands(c, s, id, tenant, now, n + 1, out)
  {
    var s1 := Next(c, s, NextOf(s.flights[id], id, now));
    assert Go(c, s1, id, now, n) == s1;
  }

  lemma FilledLands(c: Automations.Config, s: State, id: Id, f: Flight)
    requires id in s.flights && s.flights[id] == f && f.Filled?
    ensures Lands(c, s, id, f.who.tenantId, f.r.now, 1, Settled(c, s.world, f.r, f.who.tenantId, f.plan, f.month, f.jar))
  {
    GoDone(c, s, id, f.r.now, 0, f.who.tenantId, Settled(c, s.world, f.r, f.who.tenantId, f.plan, f.month, f.jar));
  }

  lemma MeteredLands(c: Automations.Config, s: State, id: Id, f: Flight)
    requires id in s.flights && s.flights[id] == f && f.Metered?
    ensures Lands(c, s, id, f.who.tenantId, f.r.now, 2, Poured(c, s.world, f.r, f.who.tenantId, f.plan, f.month))
  {
    var s1 := AfterPour(s, id, f, f.r.now);
    var out := Poured(c, s.world, f.r, f.who.tenantId, f.plan, f.month);
    if !(f.month.Some? && !f.month.value.allowed) && f.r.jarDown {
      GoDone(c, s, id, f.r.now, 1, f.who.tenantId, out);
    } else {
      FilledLands(c, s1, id, s1.flights[id]);
      GoOne(c, s, id, f.r.now, 1, s1, f.who.tenantId, out);
    }
  }

  lemma ClearedLands(c: Automations.Config, s: State, id: Id, f: Flight)
    requires id in s.flights && s.flights[id] == f && f.Cleared?
    ensures Lands(c, s, id, f.who.tenantId, f.r.now, 3, Gateway.Metered(c, s.world, f.r, f.who.tenantId, f.plan))
  {
    var s1 := AfterMeter(c, s, id, f, f.r.now);
    var out := Gateway.Metered(c, s.world, f.r, f.who.tenantId, f.plan);
    if f.plan.monthlyQuota.Some? && f.r.meterDown {
      GoDone(c, s, id, f.r.now, 2, f.who.tenantId, out);
    } else {
      MeteredLands(c, s1, id, s1.flights[id]);
      GoOne(c, s, id, f.r.now, 2, s1, f.who.tenantId, out);
    }
  }

  /** The decision on a plan already resolved. */
  function OnPlan(c: Automations.Config, w: World, r: Request, tenant: string, plan: Plan): (World, Gateway.Decision) {
    var asked := w.(pilot := Automations.Asked(w.pilot, tenant, r.now));
    var left := Automations.Remaining(w.pilot, tenant, r.now);
    if left > 0 then (asked, BanDecision(plan, left)) else Gateway.Metered(c, asked, r, tenant, plan)
  }

  lemma PricedLands(c: Automations.Config, s: State, id: Id, f: Flight)
    requires id in s.flights && s.flights[id] == f && f.Priced?
    ensures Lands(c, s, id, f.who.tenantId, f.r.now, 4, OnPlan(c, s.world, f.r, f.who.tenantId, f.plan))
  {
    var s1 := AfterAsk(c, s, id, f, f.r.now);
    var out := OnPlan(c, s.world, f.r, f.who.tenantId, f.plan);
    if Automations.Remaining(s.world.pilot, f.who.tenantId, f.r.now) > 0 {
      GoDone(c, s, id, f.r.now, 3, f.who.tenantId, out);
    } else {
      ClearedLands(c, s1, id, s1.flights[id]);
      GoOne(c, s, id, f.r.now, 3, s1, f.who.tenantId, out);
    }
  }

  /** A request whose sections nothing comes between is decided as if it were one step. */
  lemma Uninterrupted(c: Automations.Config, s: State, id: Id, r: Request)
    requires id !in s.flights
    ensures
      var s' := Go(c, Next(c, s, Enter(id, r)), id, r.now, 5);
      && s'.world == Checked(c, s.world, r).0 && s'.flights == s.flights
      && s'.answers == s.answers + [Answer(id, Who(s.world, r).tenantId, Checked(c, s.world, r).1)]
  {
    var who := Who(s.world, r);
    var s0 := Next(c, s, Enter(id, r));
    var s1 := Next(c, s0, Price(id));
    assert s0.flights - {id} == s.flights;
    if PlanFor(s.world, r).Some? {
      PricedLands(c, s1, id, s1.flights[id]);
      GoOne(c, s0, id, r.now, 4, s1, who.tenantId, Checked(c, s.world, r));
    } else {
      GoDone(c, s0, id, r.now, 4, who.tenantId, Checked(c, s.world, r));
    }
  }
}
