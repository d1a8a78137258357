/** The safe parameters are the only safe ones: outside them, a schedule with two leaders. */
module LeaseSplitBrain {
  import opened Wrappers
  import opened Lease
  import opened LeaseSafety

  /** A state in which only replicas 0 and 1 have done anything. */
  function Scene(c: Config, now: int, r0: Replica, r1: Replica, puts: set<Write>, log: seq<Landed>): (s: State)
    requires 2 <= c.n
    ensures |s.reps| == c.n
  {
    State(now, seq(c.n, i => if i == 0 then r0 else if i == 1 then r1 else Newborn(0, 0)), puts, log)
  }

  lemma Extend(c: Config, s: State, a: Action, s': State)
    requires ValidConfig(c) && Reachable(c, s) && |s.reps| == c.n && Step(c, s, a) == Some(s')
    ensures Reachable(c, s')
  {
    var acts :| Run(c, acts) == Some(s);
    assert (acts + [a])[..|acts + [a]| - 1] == acts;
    assert Run(c, acts + [a]) == Some(s');
  }

  lemma Wait(c: Config, now: int, d: nat, r0: Replica, r1: Replica, puts: set<Write>, log: seq<Landed>)
    requires ValidConfig(c) && 2 <= c.n && Reachable(c, Scene(c, now, r0, r1, puts, log))
    requires MayLinger(c, r0, now + d) && MayLinger(c, r1, now + d)
    ensures Reachable(c, Scene(c, now + d, r0, r1, puts, log))
  {
    var s := Scene(c, now, r0, r1, puts, log);
    forall i | 0 <= i < |s.reps|
      ensures MayLinger(c, s.reps[i], s.now + d)
    {
      assert s.reps[i] == if i == 0 then r0 else if i == 1 then r1 else Newborn(0, 0);
    }
    Extend(c, s, Tick(d), Scene(c, now + d, r0, r1, puts, log));
  }

  /** A step of replica 0 or 1, written as the step from one scene to the next. */
  lemma Act(c: Config, now: int, r0: Replica, r1: Replica, puts: set<Write>, log: seq<Landed>, a: Action, r0': Replica,
            r1': Replica, puts': set<Write>, log': seq<Landed>)
    requires ValidConfig(c) && 2 <= c.n && Reachable(c, Scene(c, now, r0, r1, puts, log)) && !a.Tick?
    requires
      var s := Scene(c, now, r0, r1, puts, log);
      match Step(c, s, a)
      case None => false
      case Some(s') =>
        && s'.now == now && s'.puts == puts' && s'.log == log'
        && ((s'.reps == s.reps[0 := r0'] && r1' == r1) || (s'.reps == s.reps[1 := r1'] && r0' == r0))
    ensures Reachable(c, Scene(c, now, r0', r1', puts', log'))
  {
    var s := Scene(c, now, r0, r1, puts, log);
    var s' := Step(c, s, a).value;
    assert s'.reps == Scene(c, now, r0', r1', puts', log').reps;
    Extend(c, s, a, s');
  }

  /** Replica 1 reads its clock and sends its GET; one latency later replica 0 starts. */
  lemma BothStart(c: Config) returns (r0: Replica, r1: Replica)
    requires ValidConfig(c) && 2 <= c.n
    ensures r0 == Newborn(0, 0).(phase := Getting(c.latency), attempt := 1)
    ensures r1 == Newborn(0, 0).(phase := Getting(0), attempt := 1)
    ensures Reachable(c, Scene(c, c.latency, r0, r1, {}, []))
  {
    var a := Newborn(0, 0);
    assert Run(c, []) == Some(Init(c));
    assert Init(c) == Scene(c, 0, a, a, {}, []);
    r1 := a.(phase := Getting(0), attempt := 1);
    Act(c, 0, a, a, {}, [], Start(1), a, r1, {}, []);
    Wait(c, 0, c.latency, a, r1, {}, []);
    r0 := a.(phase := Getting(c.latency), attempt := 1);
    Act(c, c.latency, a, r1, {}, [], Start(0), r0, r1, {}, []);
  }

  /** Replica 0 finds no lease and creates one, all within one instant. */
  lemma CreateLease(c: Config, r0: Replica, r1: Replica) returns (r0': Replica, log: seq<Landed>)
    requires ValidConfig(c) && 2 <= c.n
    requires r0 == Newborn(0, 0).(phase := Getting(c.latency), attempt := 1)
    requires Reachable(c, Scene(c, c.latency, r0, r1, {}, []))
    ensures log == [Landed(Write(0, 1, Create, 0, Record(Held(0), 0), c.latency, c.latency), c.latency)]
    ensures r0' == r0.(phase := Answered(c.latency, true, 1, c.latency))
    ensures Reachable(c, Scene(c, c.latency, r0', r1, {}, log))
  {
    var d := c.latency;
    var a0 := r0.(phase := GotLease(d, 0, d));
    Act(c, d, r0, r1, {}, [], ServeGet(0), a0, r1, {}, []);
    var b0 := r0.(phase := Putting(d));
    var p := Write(0, 1, Create, 0, Record(Held(0), 0), d, d);
    Act(c, d, a0, r1, {}, [], Handle(0), b0, r1, {p}, []);
    log := [Landed(p, d)];
    assert [] + log == log && {p} - {p} == {};
    r0' := r0.(phase := Answered(d, true, 1, d));
    Act(c, d, b0, r1, {p}, [], Land(p), r0', r1, {}, log);
  }

  /** Replica 1 sees the new lease at once, and waits from its own, older, clock reading. */
  lemma Observe(c: Config, r0: Replica, r1: Replica, log: seq<Landed>) returns (r1': Replica)
    requires ValidConfig(c) && 2 <= c.n && Reachable(c, Scene(c, c.latency, r0, r1, {}, log))
    requires r1 == Newborn(0, 0).(phase := Getting(0), attempt := 1)
    requires |log| == 1 && log[0].w.rec == Record(Held(0), 0)
    ensures !r1'.isLeader && r1'.phase.Waiting? && r1'.memory == Memory(1, c.skew[1], 0)
    ensures Reachable(c, Scene(c, c.latency, r0, r1', {}, log))
  {
    var d := c.latency;
    var a1 := r1.(phase := GotLease(0, 1, d));
    Act(c, d, r0, r1, {}, log, ServeGet(1), r0, a1, {}, log);
    r1' := a1.(memory := Memory(1, c.skew[1], 0), seenAt := d, phase := Waiting(d));
    Act(c, d, r0, a1, {}, log, Handle(1), r0, r1', {}, log);
  }

  /** Replica 0 hears back as late as it can, and leads. */
  lemma Prologue(c: Config) returns (r0: Replica, r1: Replica, log: seq<Landed>)
    requires ValidConfig(c) && 2 <= c.n
    ensures Reachable(c, Scene(c, 2 * c.latency, r0, r1, {}, log))
    ensures |log| == 1 && log[0].w.rec.holder == Held(0)
    ensures r0.isLeader && r0.phase == Waiting(2 * c.latency)
    ensures !r1.isLeader && r1.phase.Waiting? && r1.memory.observedRV == 1 && r1.memory.observedAt == c.skew[1]
  {
    var d := c.latency;
    var a0, a1 := BothStart(c);
    var b0;
    b0, log := CreateLease(c, a0, a1);
    r1 := Observe(c, b0, a1, log);
    Wait(c, d, d, b0, r1, {}, log);
    r0 := b0.(isLeader := true, phase := Waiting(2 * d), ackedRV := 1, ackedAt := d);
    Act(c, 2 * d, b0, r1, {}, log, Finish(0), r0, r1, {}, log);
  }

  /** The leader's next renewal hangs until its bound. */
  lemma HangRenewal(c: Config, r0: Replica, r1: Replica, log: seq<Landed>) returns (r0': Replica)
    requires ValidConfig(c) && 2 <= c.n
    requires Reachable(c, Scene(c, 2 * c.latency, r0, r1, {}, log))
    requires r0.isLeader && r0.phase == Waiting(2 * c.latency) && !r1.isLeader && r1.phase.Waiting?
    ensures r0'.isLeader && r0'.phase.Getting?
    ensures Reachable(c, Scene(c, 2 * c.latency + c.retryPeriod + RenewBound(c), r0', r1, {}, log))
  {
    var t := 2 * c.latency + c.retryPeriod;
    Wait(c, 2 * c.latency, c.retryPeriod, r0, r1, {}, log);
    r0' := r0.(phase := Getting(t), attempt := r0.attempt + 1);
    Act(c, t, r0, r1, {}, log, Start(0), r0', r1, {}, log);
    Wait(c, t, RenewBound(c), r0', r1, {}, log);
  }

  /** On shutdown it then releases, and that hangs too. */
  lemma HangRelease(c: Config, t: int, r0: Replica, r1: Replica, log: seq<Landed>) returns (r0': Replica)
    requires ValidConfig(c) && 2 <= c.n && Reachable(c, Scene(c, t, r0, r1, {}, log))
    requires r0.isLeader && r0.phase.Getting? && !r1.isLeader && r1.phase.Waiting?
    ensures r0'.isLeader
    ensures Reachable(c, Scene(c, t + ReleaseBound(c), r0', r1, {}, log))
  {
    r0' := r0;
    if c.shutdown {
      r0' := r0.(phase := ReleaseGetting(t), attempt := r0.attempt + 1);
      Act(c, t, r0, r1, {}, log, Cancel(0), r0', r1, {}, log);
      Wait(c, t, RELEASE_TIMEOUT, r0', r1, {}, log);
    }
  }

  /** Replica 1 finds the record unchanged since its first observation, and takes it. */
  lemma Usurp(c: Config, t: int, r0: Replica, r1: Replica, log: seq<Landed>) returns (s: State)
    requires ValidConfig(c) && 2 <= c.n && Reachable(c, Scene(c, t, r0, r1, {}, log))
    requires r0.isLeader && |log| == 1 && log[0].w.rec.holder == Held(0) && t >= c.leaseDuration
    requires r1.phase.Waiting? && r1.memory.observedRV == 1 && r1.memory.observedAt == c.skew[1]
    ensures Reachable(c, s) && !AtMostOneLeader(s)
  {
    var a1 := r1.(phase := Getting(t), attempt := r1.attempt + 1);
    Act(c, t, r0, r1, {}, log, Start(1), r0, a1, {}, log);
    var b1 := a1.(phase := GotLease(t, 1, t));
    Act(c, t, r0, a1, {}, log, ServeGet(1), r0, b1, {}, log);
    var cur := log[0].w.rec;
    var c1 := b1.(memory := r1.memory.(transitions := cur.transitions), phase := Putting(t));
    var q := Write(1, a1.attempt, TakeOver, 1, Record(Held(1), cur.transitions + 1), t, r1.seenAt);
    Act(c, t, r0, b1, {}, log, Handle(1), r0, c1, {q}, log);
    var log' := log + [Landed(q, t)];
    var d1 := c1.(phase := Answered(t, true, 2, t));
    assert {q} - {q} == {};
    Act(c, t, r0, c1, {q}, log, Land(q), r0, d1, {}, log');
    var e1 := d1.(isLeader := true, phase := Waiting(t), ackedRV := 2, ackedAt := t);
    Act(c, t, r0, d1, {}, log', Finish(1), r0, e1, {}, log');
    s := Scene(c, t, r0, e1, {}, log');
    assert s.reps[0].isLeader && s.reps[1].isLeader;
  }

  /** Outside the safe parameters the election can show two leaders at once. */
  lemma SplitBrain(c: Config) returns (s: State)
    requires ValidConfig(c) && 2 <= c.n && !Safe(c)
    ensures Reachable(c, s) && !AtMostOneLeader(s)
  {
    var r0, r1, log := Prologue(c);
    var g0 := HangRenewal(c, r0, r1, log);
    var h0 := HangRelease(c, 2 * c.latency + c.retryPeriod + RenewBound(c), g0, r1, log);
    s := Usurp(c, c.latency + LeadBound(c), h0, r1, log);
  }

  /** The exact condition: two or more replicas never show two leaders iff the lease outlasts
      twice the latency, one retry period, one bounded renewal and, where leaders are shut
      down gracefully, the release timeout. */
  lemma MutualExclusionIff(c: Config)
    requires ValidConfig(c) && 2 <= c.n
    ensures (forall s | Reachable(c, s) :: AtMostOneLeader(s)) <==> Safe(c)
  {
    if Safe(c) {
      forall s | Reachable(c, s)
        ensures AtMostOneLeader(s)
      {
        MutualExclusion(c, s);
      }
    } else {
      var s := SplitBrain(c);
    }
  }

  const SECOND: int := 1_000_000_000

  /** The ordering the source gives as the invariant that makes this safe. */
  predicate DocumentedOrder(c: Config) {
    c.retryPeriod < c.renewDeadline < c.leaseDuration
  }

  /** The ordering alone is not enough: the default periods obey it and still split when
      attempts may take five seconds. */
  lemma DocumentedOrderIsNotEnough() returns (c: Config, s: State)
    ensures ValidConfig(c) && DocumentedOrder(c)
    ensures c.leaseDuration == 15 * SECOND && c.renewDeadline == 10 * SECOND && c.retryPeriod == 2 * SECOND
    ensures Reachable(c, s) && !AtMostOneLeader(s)
  {
    c := Config(2, 15 * SECOND, 10 * SECOND, 2 * SECOND, 5 * SECOND, true, [0, 0]);
    s := SplitBrain(c);
  }

  /** Without graceful shutdown, the sum of two latencies, a retry period and the renew
      deadline is enough; with it the same sum is not. */
  lemma RenewDeadlineBudget(c: Config)
    requires ValidConfig(c) && 2 <= c.n
    requires c.leaseDuration > 2 * c.latency + c.retryPeriod + c.renewDeadline
    ensures !c.shutdown ==> forall s | Reachable(c, s) :: AtMostOneLeader(s)
    ensures c.shutdown ==>
              ((forall s | Reachable(c, s) :: AtMostOneLeader(s))
               <==> c.leaseDuration > 2 * c.latency + c.retryPeriod + RenewBound(c) + 3 * SECOND)
  {
    MutualExclusionIff(c);
  }
}
