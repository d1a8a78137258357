/** What the autopilot does over whole runs. */
module AutomationsProofs {
  import opened Automations

  datatype Op =
    | Decide(e: Event, now: int)
    | Ask(tenant: string, now: int)
    | BanTenant(tenant: string, ms: int, now: int)
    | UnbanTenant(tenant: string, now: int)

  function Step(c: Config, p: Pilot, op: Op): Pilot {
    match op
    case Decide(e, now) => Decided(c, p, e, now)
    case Ask(t, now) => Asked(p, t, now)
    case BanTenant(t, ms, now) => ByHand(c, p, t, ms, now)
    case UnbanTenant(t, now) => Lifted(p, t, now)
  }

  function Run(c: Config, ops: seq<Op>): Pilot {
    if ops == [] then IDLE else Step(c, Run(c, ops[..|ops| - 1]), ops[|ops| - 1])
  }

  // ---- Storms -----------------------------------------------------------------------

  /** The rules before it do not touch what the storm rule reads. */
  lemma StormAlone(c: Config, p: Pilot, e: Event, now: int)
    requires Blocked(e)
    ensures Decided(c, p, e, now).stormLog
            == if Trips(c, p, e, now) then p.stormLog - {e.tenant} else p.stormLog[e.tenant := Fresh(c, p, e)]
    ensures Decided(c, p, e, now).bans == if Trips(c, p, e, now) then p.bans[e.tenant := now + c.cooldownMs] else p.bans
  {
  }

  lemma OthersLeaveStorms(c: Config, p: Pilot, op: Op)
    requires !(op.Decide? && Blocked(op.e))
    ensures Step(c, p, op).stormLog == p.stormLog
    ensures op.Decide? ==> Step(c, p, op).bans == p.bans
  {
  }

  predicate Hit(op: Op, t: string) {
    op.Decide? && Blocked(op.e) && op.e.tenant == t
  }

  /** The operation sets off an automatic cooldown for t. */
  predicate TripsOn(c: Config, p: Pilot, op: Op, t: string) {
    Hit(op, t) && Trips(c, p, op.e, op.now)
  }

  function HitCount(ops: seq<Op>, t: string): nat {
    if ops == [] then 0 else HitCount(ops[..|ops| - 1], t) + if Hit(ops[|ops| - 1], t) then 1 else 0
  }

  function TripCount(c: Config, ops: seq<Op>, t: string): nat {
    if ops == [] then 0
    else
      var before := ops[..|ops| - 1];
      TripCount(c, before, t) + if TripsOn(c, Run(c, before), ops[|ops| - 1], t) then 1 else 0
  }

  /** The times of t's burst blocks since its last cooldown, bans by hand notwithstanding. */
  function SinceTrip(c: Config, ops: seq<Op>, t: string): seq<int> {
    if ops == [] then []
    else
      var before, last := ops[..|ops| - 1], ops[|ops| - 1];
      if TripsOn(c, Run(c, before), last, t) then []
      else if Hit(last, t) then SinceTrip(c, before, t) + [last.e.at]
      else SinceTrip(c, before, t)
  }

  lemma Add(threshold: int, n: nat)
    ensures threshold * (n + 1) == threshold * n + threshold
  {
  }

  lemma LogAfter(c: Config, p: Pilot, op: Op, t: string)
    ensures Log(Step(c, p, op), t)
            == if TripsOn(c, p, op, t) then [] else if Hit(op, t) then Fresh(c, p, op.e) else Log(p, t)
  {
    if op.Decide? && Blocked(op.e) {
      StormAlone(c, p, op.e, op.now);
    } else {
      OthersLeaveStorms(c, p, op);
    }
  }

  /** Each cooldown uses up a threshold's worth of burst blocks, for good. */
  lemma {:induction false} StormConservation(c: Config, ops: seq<Op>, t: string)
    ensures c.threshold * TripCount(c, ops, t) + |Log(Run(c, ops), t)| <= HitCount(ops, t)
  {
    if ops != [] {
      var before, last := ops[..|ops| - 1], ops[|ops| - 1];
      StormConservation(c, before, t);
      LogAfter(c, Run(c, before), last, t);
      Add(c.threshold, TripCount(c, before, t));
    }
  }

  lemma {:induction false} RecentIsPart(log: seq<int>, at: int, w: int)
    ensures multiset(Recent(log, at, w)) <= multiset(log)
  {
    if log != [] {
      var n := |log| - 1;
      RecentIsPart(log[..n], at, w);
      assert log == log[..n] + [log[n]];
    }
  }

  lemma {:induction false} LogIsSince(c: Config, ops: seq<Op>, t: string)
    ensures multiset(Log(Run(c, ops), t)) <= multiset(SinceTrip(c, ops, t))
  {
    if ops != [] {
      var before, last := ops[..|ops| - 1], ops[|ops| - 1];
      LogIsSince(c, before, t);
      LogAfter(c, Run(c, before), last, t);
      if Hit(last, t) {
        RecentIsPart(Log(Run(c, before), t), last.e.at, c.windowMs);
      }
    }
  }

  /** A cooldown rests on a threshold's worth of burst blocks, all inside its window and none of
      them used by an earlier cooldown, and no ban is live when it is set. */
  lemma TripHasEvidence(c: Config, ops: seq<Op>, t: string) returns (evidence: seq<int>)
    requires ops != [] && TripsOn(c, Run(c, ops[..|ops| - 1]), ops[|ops| - 1], t)
    ensures |evidence| >= c.threshold
    ensures multiset(evidence) <= multiset(SinceTrip(c, ops[..|ops| - 1], t) + [ops[|ops| - 1].e.at])
    ensures c.windowMs > 0 ==> forall a | a in evidence :: ops[|ops| - 1].e.at - a < c.windowMs
    ensures !Banned(Run(c, ops[..|ops| - 1]), t, ops[|ops| - 1].now)
    ensures Banned(Run(c, ops), t, ops[|ops| - 1].now) <==> c.cooldownMs > 0
  {
    var before, last := ops[..|ops| - 1], ops[|ops| - 1];
    LogIsSince(c, before, t);
    evidence := Fresh(c, Run(c, before), last.e);
    TripRests(c, Run(c, before), last.e, last.now, SinceTrip(c, before, t));
  }

  lemma TripRests(c: Config, p: Pilot, e: Event, now: int, since: seq<int>)
    requires Trips(c, p, e, now) && multiset(Log(p, e.tenant)) <= multiset(since)
    ensures |Fresh(c, p, e)| >= c.threshold && multiset(Fresh(c, p, e)) <= multiset(since + [e.at])
    ensures c.windowMs > 0 ==> forall a | a in Fresh(c, p, e) :: e.at - a < c.windowMs
    ensures Banned(Decided(c, p, e, now), e.tenant, now) <==> c.cooldownMs > 0
  {
    RecentIsPart(Log(p, e.tenant), e.at, c.windowMs);
    StormAlone(c, p, e, now);
  }

  // ---- Exactly when -----------------------------------------------------------------

  ghost predicate InOrder(ops: seq<Op>) {
    forall i, j | 0 <= i < j < |ops| && ops[i].Decide? && ops[j].Decide? :: ops[i].e.at <= ops[j].e.at
  }

  lemma {:induction false} RecentTwice(log: seq<int>, a: int, b: int, w: int)
    requires a <= b
    ensures Recent(Recent(log, a, w), b, w) == Recent(log, b, w)
  {
    if log != [] {
      var n := |log| - 1;
      RecentTwice(log[..n], a, b, w);
      if a - log[n] < w {
        RecentAppend(Recent(log[..n], a, w), log[n], b, w);
      }
    }
  }

  lemma RecentAppend(log: seq<int>, x: int, at: int, w: int)
    ensures Recent(log + [x], at, w) == if at - x < w then Recent(log, at, w) + [x] else Recent(log, at, w)
  {
    assert (log + [x])[..|log|] == log;
  }

  lemma {:induction false} SinceIsPast(c: Config, ops: seq<Op>, t: string, at: int)
    requires forall i | 0 <= i < |ops| && ops[i].Decide? :: ops[i].e.at <= at
    ensures forall a | a in SinceTrip(c, ops, t) :: a <= at
  {
    if ops != [] {
      SinceIsPast(c, ops[..|ops| - 1], t, at);
    }
  }

  /** With events in time order the log is the burst blocks since the last cooldown that were
      still inside the window at the latest of them. */
  lemma {:induction false} LogIsRecent(c: Config, ops: seq<Op>, t: string)
    requires InOrder(ops) && c.windowMs > 0
    ensures SinceTrip(c, ops, t) == [] ==> Log(Run(c, ops), t) == []
    ensures SinceTrip(c, ops, t) != [] ==>
              Log(Run(c, ops), t)
              == Recent(SinceTrip(c, ops, t), SinceTrip(c, ops, t)[|SinceTrip(c, ops, t)| - 1], c.windowMs)
  {
    if ops != [] {
      var before, last := ops[..|ops| - 1], ops[|ops| - 1];
      LogIsRecent(c, before, t);
      LogAfter(c, Run(c, before), last, t);
      if Hit(last, t) && !TripsOn(c, Run(c, before), last, t) {
        FreshIsRecent(c, before, last, t);
      }
    }
  }

  lemma FreshIsRecent(c: Config, before: seq<Op>, last: Op, t: string)
    requires c.windowMs > 0 && Hit(last, t)
    requires forall i | 0 <= i < |before| && before[i].Decide? :: before[i].e.at <= last.e.at
    requires SinceTrip(c, before, t) == [] ==> Log(Run(c, before), t) == []
    requires SinceTrip(c, before, t) != [] ==>
               Log(Run(c, before), t)
               == Recent(SinceTrip(c, before, t), SinceTrip(c, before, t)[|SinceTrip(c, before, t)| - 1], c.windowMs)
    ensures Fresh(c, Run(c, before), last.e) == Recent(SinceTrip(c, before, t) + [last.e.at], last.e.at, c.windowMs)
  {
    var since := SinceTrip(c, before, t);
    SinceIsPast(c, before, t, last.e.at);
    RecentAppend(since, last.e.at, last.e.at, c.windowMs);
    if since != [] {
      assert since[|since| - 1] in since;
      RecentTwice(since, since[|since| - 1], last.e.at, c.windowMs);
    }
  }

  /** Exactly when a burst block sets off a cooldown: no ban is live, and with it there are a
      threshold's worth inside the window since the last cooldown. */
  lemma TripsIff(c: Config, before: seq<Op>, e: Event, now: int)
    requires InOrder(before + [Decide(e, now)]) && c.windowMs > 0 && Blocked(e)
    ensures Trips(c, Run(c, before), e, now) <==>
            !Banned(Run(c, before), e.tenant, now)
            && |Recent(SinceTrip(c, before, e.tenant) + [e.at], e.at, c.windowMs)| >= c.threshold
  {
    var all := before + [Decide(e, now)];
    forall i, j | 0 <= i < j < |before| && before[i].Decide? && before[j].Decide?
      ensures before[i].e.at <= before[j].e.at
    {
      assert all[i] == before[i] && all[j] == before[j];
    }
    forall i | 0 <= i < |before| && before[i].Decide?
      ensures before[i].e.at <= e.at
    {
      assert all[i] == before[i] && all[|before|] == Decide(e, now);
    }
    LogIsRecent(c, before, e.tenant);
    FreshIsRecent(c, before, Decide(e, now), e.tenant);
  }

  // ---- Cooldowns --------------------------------------------------------------------

  ghost predicate ClocksForward(ops: seq<Op>) {
    forall i, j | 0 <= i < j < |ops| :: ops[i].now <= ops[j].now
  }

  predicate ByPeople(op: Op, t: string) {
    (op.BanTenant? || op.UnbanTenant?) && op.tenant == t
  }

  /** After a cooldown set at i, until someone intervenes: it is on file, or it has run out. */
  ghost predicate Holds(p: Pilot, t: string, until: int, now: int) {
    (t in p.bans && p.bans[t] >= until) || now >= until
  }

  lemma StepHolds(c: Config, p: Pilot, op: Op, t: string, until: int, now: int)
    requires Holds(p, t, until, now) && now <= op.now && !ByPeople(op, t)
    ensures Holds(Step(c, p, op), t, until, op.now)
  {
    if op.Decide? && Blocked(op.e) {
      StormAlone(c, p, op.e, op.now);
    } else {
      OthersLeaveStorms(c, p, op);
    }
  }

  lemma TripSets(c: Config, p: Pilot, op: Op, t: string)
    requires TripsOn(c, p, op, t)
    ensures Holds(Step(c, p, op), t, op.now + c.cooldownMs, op.now)
  {
    StormAlone(c, p, op.e, op.now);
  }

  lemma RunStep(c: Config, ops: seq<Op>, j: nat)
    requires 0 < j <= |ops|
    ensures Run(c, ops[..j]) == Step(c, Run(c, ops[..j - 1]), ops[j - 1])
  {
    assert ops[..j][..j - 1] == ops[..j - 1];
  }

  lemma NextHolds(c: Config, ops: seq<Op>, t: string, until: int, j: nat)
    requires 2 <= j <= |ops| && ClocksForward(ops) && !ByPeople(ops[j - 1], t)
    requires Holds(Run(c, ops[..j - 1]), t, until, ops[j - 2].now)
    ensures Holds(Run(c, ops[..j]), t, until, ops[j - 1].now)
  {
    RunStep(c, ops, j);
    StepHolds(c, Run(c, ops[..j - 1]), ops[j - 1], t, until, ops[j - 2].now);
  }

  lemma {:induction false} CooldownHolds(c: Config, ops: seq<Op>, t: string, i: nat, j: nat)
    requires i < j <= |ops| && ClocksForward(ops)
    requires TripsOn(c, Run(c, ops[..i]), ops[i], t)
    requires forall k | i < k < j :: !ByPeople(ops[k], t)
    ensures Holds(Run(c, ops[..j]), t, ops[i].now + c.cooldownMs, ops[j - 1].now)
    decreases j
  {
    if j == i + 1 {
      RunStep(c, ops, j);
      TripSets(c, Run(c, ops[..i]), ops[i], t);
    } else {
      CooldownHolds(c, ops, t, i, j - 1);
      NextHolds(c, ops, t, ops[i].now + c.cooldownMs, j);
    }
  }

  /** Unless someone lifts or sets a ban by hand, two cooldowns of one client start at least a
      cooldown apart, however often it is asked about in between. */
  lemma CooldownsApart(c: Config, ops: seq<Op>, t: string, i: nat, j: nat)
    requires i < j < |ops| && ClocksForward(ops)
    requires TripsOn(c, Run(c, ops[..i]), ops[i], t) && TripsOn(c, Run(c, ops[..j]), ops[j], t)
    requires forall k | i < k < j :: !ByPeople(ops[k], t)
    ensures ops[j].now >= ops[i].now + c.cooldownMs
  {
    CooldownHolds(c, ops, t, i, j);
    assert ops[j - 1].now <= ops[j].now;
  }

  /** Reaping is invisible: a later clock sees the same bans whether or not someone asked. */
  lemma AskingChangesNothing(p: Pilot, asked: string, t: string, now: int, later: int)
    requires now <= later
    ensures Banned(Asked(p, asked, now), t, later) == Banned(p, t, later)
    ensures Remaining(Asked(p, asked, now), t, later) == Remaining(p, t, later)
  {
  }

  // ---- Once a month -----------------------------------------------------------------

  /** Month names have one length. */
  ghost predicate FixedWidth(c: Config) {
    forall a, b :: |c.monthOf(a)| == |c.monthOf(b)|
  }

  lemma SuffixesTell(t: string, m: string, rule: string, u: string, n: string)
    requires |m| == |n|
    ensures t + ":" + m + rule == u + ":" + n + rule ==> t == u && m == n
  {
    var a, b := t + ":" + m + rule, u + ":" + n + rule;
    assert a[..|t|] == t && b[..|u|] == u;
    assert a[|t| + 1..|t| + 1 + |m|] == m && b[|u| + 1..|u| + 1 + |n|] == n;
  }

  /** A key names its tenant, its month and its rule. */
  lemma KeysTell(c: Config, e: Event, f: Event)
    requires FixedWidth(c)
    ensures AlertKey(c, e) == AlertKey(c, f) <==> e.tenant == f.tenant && c.monthOf(e.at) == c.monthOf(f.at)
    ensures NudgeKey(c, e) == NudgeKey(c, f) <==> e.tenant == f.tenant && c.monthOf(e.at) == c.monthOf(f.at)
    ensures AlertKey(c, e) != NudgeKey(c, f)
  {
    SuffixesTell(e.tenant, c.monthOf(e.at), ":80pct", f.tenant, c.monthOf(f.at));
    SuffixesTell(e.tenant, c.monthOf(e.at), ":nudge", f.tenant, c.monthOf(f.at));
    var a, b := AlertKey(c, e), NudgeKey(c, f);
    assert a[|a| - 1] == 't' && b[|b| - 1] == 'e';
  }

  /** Of tenant t in month m. */
  predicate Of(c: Config, e: Event, t: string, m: string) {
    e.tenant == t && c.monthOf(e.at) == m
  }

  function AlertCount(c: Config, ops: seq<Op>, t: string, m: string): nat {
    if ops == [] then 0
    else
      var before, last := ops[..|ops| - 1], ops[|ops| - 1];
      AlertCount(c, before, t, m)
      + if last.Decide? && last.e.reason != "auto_cooldown" && Of(c, last.e, t, m) && Alerts(c, Run(c, before), last.e) then 1 else 0
  }

  /** Something in the month came close to the quota. */
  ghost predicate CameNear(c: Config, ops: seq<Op>, t: string, m: string) {
    exists i :: 0 <= i < |ops| && ops[i].Decide? && ops[i].e.reason != "auto_cooldown" && Of(c, ops[i].e, t, m) && NearQuota(ops[i].e)
  }

  lemma FiredAfter(c: Config, p: Pilot, op: Op)
    ensures Step(c, p, op).firedOnce
            == p.firedOnce
               + (if op.Decide? && op.e.reason != "auto_cooldown" && NearQuota(op.e) then {AlertKey(c, op.e)} else {})
               + (if op.Decide? && Nudges(c, p, op.e) then {NudgeKey(c, op.e)} else {})
  {
    if op.Decide? && op.e.reason != "auto_cooldown" {
      var p1 := AfterAlert(c, p, op.e, op.now);
      assert AlertKey(c, op.e)[|AlertKey(c, op.e)| - 1] == 't';
      assert NudgeKey(c, op.e)[|NudgeKey(c, op.e)| - 1] == 'e';
      assert Nudges(c, p1, op.e) == Nudges(c, p, op.e);
    }
  }

  /** One alert a month at most, and exactly when there was something to say: the first event that
      finds the plan 80% used. */
  lemma {:induction false} AlertOnceIff(c: Config, ops: seq<Op>, sample: Event)
    requires FixedWidth(c)
    ensures
      var t, m := sample.tenant, c.monthOf(sample.at);
      && AlertCount(c, ops, t, m) == (if CameNear(c, ops, t, m) then 1 else 0)
      && (AlertKey(c, sample) in Run(c, ops).firedOnce <==> CameNear(c, ops, t, m))
  {
    if ops != [] {
      var before, last := ops[..|ops| - 1], ops[|ops| - 1];
      var t, m := sample.tenant, c.monthOf(sample.at);
      AlertOnceIff(c, before, sample);
      FiredAfter(c, Run(c, before), last);
      if last.Decide? {
        KeysTell(c, sample, last.e);
      }
      NearSteps(c, ops, t, m);
    }
  }

  lemma NearSteps(c: Config, ops: seq<Op>, t: string, m: string)
    requires ops != []
    ensures
      var before, last := ops[..|ops| - 1], ops[|ops| - 1];
      CameNear(c, ops, t, m) <==>
      CameNear(c, before, t, m)
      || (last.Decide? && last.e.reason != "auto_cooldown" && Of(c, last.e, t, m) && NearQuota(last.e))
  {
    var before := ops[..|ops| - 1];
    if CameNear(c, before, t, m) {
      var i :| 0 <= i < |before| && before[i].Decide? && before[i].e.reason != "auto_cooldown" && Of(c, before[i].e, t, m) && NearQuota(before[i].e);
      assert ops[i] == before[i];
    }
  }

  // ---- Three slams ------------------------------------------------------------------

  predicate Slam(op: Op, t: string) {
    op.Decide? && !op.e.allowed && op.e.reason == "monthly_quota" && op.e.tenant == t
  }

  function SlamCount(c: Config, ops: seq<Op>, t: string, m: string): nat {
    if ops == [] then 0
    else SlamCount(c, ops[..|ops| - 1], t, m) + if Slam(ops[|ops| - 1], t) && c.monthOf(ops[|ops| - 1].e.at) == m then 1 else 0
  }

  function NudgeCount(c: Config, ops: seq<Op>, t: string, m: string): nat {
    if ops == [] then 0
    else
      var before, last := ops[..|ops| - 1], ops[|ops| - 1];
      NudgeCount(c, before, t, m) + if last.Decide? && Of(c, last.e, t, m) && Nudges(c, Run(c, before), last.e) then 1 else 0
  }

  /** Months do not come back. */
  ghost predicate MonthsPass(c: Config, ops: seq<Op>, t: string) {
    forall i, j, k | 0 <= i < j < k < |ops| && Slam(ops[i], t) && Slam(ops[j], t) && Slam(ops[k], t)
                     && c.monthOf(ops[i].e.at) == c.monthOf(ops[k].e.at) ::
      c.monthOf(ops[j].e.at) == c.monthOf(ops[k].e.at)
  }

  /** The index of the last slam. */
  ghost function LastSlam(ops: seq<Op>, t: string): (r: int)
    ensures -1 <= r < |ops|
    ensures r >= 0 ==> Slam(ops[r], t)
    ensures forall i | r < i < |ops| :: !Slam(ops[i], t)
  {
    if ops == [] then -1
    else if Slam(ops[|ops| - 1], t) then |ops| - 1
    else LastSlam(ops[..|ops| - 1], t)
  }

  lemma {:induction false} NoSlamNoCount(c: Config, ops: seq<Op>, t: string, m: string)
    requires forall i | 0 <= i < |ops| && Slam(ops[i], t) :: c.monthOf(ops[i].e.at) != m
    ensures SlamCount(c, ops, t, m) == 0
  {
    if ops != [] {
      NoSlamNoCount(c, ops[..|ops| - 1], t, m);
    }
  }

  lemma HitsAfter(c: Config, p: Pilot, op: Op)
    ensures Step(c, p, op).capHits
            == if op.Decide? && Capped(op.e) then p.capHits[op.e.tenant := Hits(c.monthOf(op.e.at), CountNow(c, p, op.e))] else p.capHits
  {
  }

  /** The counter kept for a client is the number of slams in the month of its last one. */
  ghost predicate Counted(c: Config, ops: seq<Op>, t: string) {
    var last := LastSlam(ops, t);
    var hits := Run(c, ops).capHits;
    if last < 0 then t !in hits
    else t in hits && hits[t] == Hits(c.monthOf(ops[last].e.at), SlamCount(c, ops, t, c.monthOf(ops[last].e.at)))
  }

  lemma SlamCounts(c: Config, ops: seq<Op>, t: string)
    requires ops != [] && Slam(ops[|ops| - 1], t) && MonthsPass(c, ops, t) && Counted(c, ops[..|ops| - 1], t)
    ensures
      var before, e := ops[..|ops| - 1], ops[|ops| - 1].e;
      CountNow(c, Run(c, before), e) == SlamCount(c, ops, t, c.monthOf(e.at))
  {
    var n := |ops| - 1;
    var before, e := ops[..n], ops[n].e;
    var last := LastSlam(before, t);
    var m := c.monthOf(e.at);
    if last < 0 {
      NoSlamNoCount(c, before, t, m);
    } else if c.monthOf(before[last].e.at) != m {
      forall i | 0 <= i < |before| && Slam(before[i], t)
        ensures c.monthOf(before[i].e.at) != m
      {
        assert ops[i] == before[i] && ops[last] == before[last];
      }
      NoSlamNoCount(c, before, t, m);
    }
  }

  /** One nudge a month at most, and exactly at the third slam. */
  lemma {:induction false} NudgeOnceIff(c: Config, ops: seq<Op>, sample: Event)
    requires FixedWidth(c) && MonthsPass(c, ops, sample.tenant)
    ensures
      var t, m := sample.tenant, c.monthOf(sample.at);
      && Counted(c, ops, t)
      && NudgeCount(c, ops, t, m) == (if SlamCount(c, ops, t, m) >= 3 then 1 else 0)
      && (NudgeKey(c, sample) in Run(c, ops).firedOnce <==> SlamCount(c, ops, t, m) >= 3)
  {
    if ops != [] {
      var before, last := ops[..|ops| - 1], ops[|ops| - 1];
      NudgeOnceIff(c, before, sample);
      FiredAfter(c, Run(c, before), last);
      HitsAfter(c, Run(c, before), last);
      if last.Decide? {
        KeysTell(c, last.e, sample);
        KeysTell(c, sample, last.e);
      }
      if Slam(last, sample.tenant) {
        SlamCounts(c, ops, sample.tenant);
      }
    }
  }

  // ---- The diary --------------------------------------------------------------------

  function Perhaps(fires: bool, a: Action): seq<Action> {
    if fires then [a] else []
  }

  /** The actions an operation takes, in order. */
  function Taken(c: Config, p: Pilot, op: Op): seq<Action> {
    match op
    case Decide(e, now) =>
      if e.reason == "auto_cooldown" then []
      else
        Perhaps(Alerts(c, p, e), Action(now, QuotaAlert, e.tenant, 0))
        + Perhaps(Nudges(c, p, e), Action(now, UpgradeNudge, e.tenant, 0))
        + Perhaps(Trips(c, p, e, now), Action(now, AutoCooldown, e.tenant, c.cooldownMs))
    case Ask(_, _) => []
    case BanTenant(t, ms, now) => [Action(now, ManualBan, t, if ms <= 0 then c.cooldownMs else ms)]
    case UnbanTenant(t, now) => [Action(now, ManualUnban, t, 0)]
  }

  function AllTaken(c: Config, ops: seq<Op>): seq<Action> {
    if ops == [] then []
    else AllTaken(c, ops[..|ops| - 1]) + Taken(c, Run(c, ops[..|ops| - 1]), ops[|ops| - 1])
  }

  function LastOnes(all: seq<Action>): seq<Action> {
    if |all| <= 500 then all else all[|all| - 500..]
  }

  lemma PushOne(all: seq<Action>, a: Action, p: Pilot)
    requires p.actions == LastOnes(all)
    ensures Acted(p, a).actions == LastOnes(all + [a])
  {
  }

  lemma PushPerhaps(all: seq<Action>, fires: bool, a: Action, p: Pilot, after: Pilot)
    requires p.actions == LastOnes(all)
    requires after.actions == if fires then Acted(p, a).actions else p.actions
    ensures after.actions == LastOnes(all + Perhaps(fires, a))
  {
    if fires {
      PushOne(all, a, p);
    } else {
      assert all + [] == all;
    }
  }

  lemma EventActions(c: Config, p: Pilot, e: Event, now: int, all: seq<Action>)
    requires p.actions == LastOnes(all) && e.reason != "auto_cooldown"
    ensures Decided(c, p, e, now).actions == LastOnes(all + Taken(c, p, Decide(e, now)))
  {
    var alert, nudge, storm := Action(now, QuotaAlert, e.tenant, 0), Action(now, UpgradeNudge, e.tenant, 0), Action(now, AutoCooldown, e.tenant, c.cooldownMs);
    var p1 := AfterAlert(c, p, e, now);
    var p2 := AfterNudge(c, p1, e, now);
    SameNudge(c, p, e, now);
    var a1, a2, a3 := Perhaps(Alerts(c, p, e), alert), Perhaps(Nudges(c, p, e), nudge), Perhaps(Trips(c, p, e, now), storm);
    PushPerhaps(all, Alerts(c, p, e), alert, p, p1);
    PushPerhaps(all + a1, Nudges(c, p, e), nudge, p1, p2);
    PushPerhaps(all + a1 + a2, Trips(c, p, e, now), storm, p2, AfterStorm(c, p2, e, now));
    assert all + a1 + a2 + a3 == all + (a1 + a2 + a3);
  }

  /** The alert does not change what the nudge and the storm rule see. */
  lemma SameNudge(c: Config, p: Pilot, e: Event, now: int)
    ensures Nudges(c, AfterAlert(c, p, e, now), e) == Nudges(c, p, e)
    ensures Trips(c, AfterNudge(c, AfterAlert(c, p, e, now), e, now), e, now) == Trips(c, p, e, now)
  {
    assert AlertKey(c, e)[|AlertKey(c, e)| - 1] == 't';
    assert NudgeKey(c, e)[|NudgeKey(c, e)| - 1] == 'e';
  }

  lemma StepActions(c: Config, p: Pilot, op: Op, all: seq<Action>)
    requires p.actions == LastOnes(all)
    ensures Step(c, p, op).actions == LastOnes(all + Taken(c, p, op))
  {
    match op
    case Decide(e, now) =>
      if e.reason == "auto_cooldown" {
        assert all + [] == all;
      } else {
        EventActions(c, p, e, now, all);
      }
    case Ask(_, _) => assert all + [] == all;
    case BanTenant(t, ms, now) => PushOne(all, Action(now, ManualBan, t, if ms <= 0 then c.cooldownMs else ms), p);
    case UnbanTenant(t, now) => PushOne(all, Action(now, ManualUnban, t, 0), p);
  }

  /** Over any run the diary holds the last five hundred actions taken, in order. */
  lemma {:induction false} DiaryKeepsLast(c: Config, ops: seq<Op>)
    ensures Run(c, ops).actions == LastOnes(AllTaken(c, ops))
  {
    if ops != [] {
      var before, last := ops[..|ops| - 1], ops[|ops| - 1];
      DiaryKeepsLast(c, before);
      StepActions(c, Run(c, before), last, AllTaken(c, before));
    }
  }
}
