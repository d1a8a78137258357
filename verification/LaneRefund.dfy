module LaneRefund {
  // The bound broken on the source's own lanes: a client that is taken for a crawler for one request
  // has its jar swept on the crawler's terms, and is given a new one on its own.

  import opened Wrappers
  import opened Policy
  import opened Gateway
  import opened GatewayProofs
  import opened EndToEnd
  import Automations
  import AutomationsProofs
  import TokenBucket
  import TokenBucketProofs

  /** A thousand requests, one a second, to whoever asks. */
  const BOOK := Book(map["free" := Tier(1000.0, 1.0, None)], map[], map[])

  const ADDRESS := "1.2.3.4"
  const WHO := "anon:" + ADDRESS

  const HUMAN := Lane(1.3, 1.0)
  const CRAWLER := Lane(0.5, 0.6)

  const IDLE: nat := 600_000
  const LATER := 840_000

  function Asking(now: int, lane: Lane): Request {
    Request("", ADDRESS, "/", now, Some(lane), false, false)
  }

  function ThePlan(): Plan {
    Resolve(BOOK, WHO, "free", "/").plan
  }

  function ArgsIn(lane: Lane): TokenBucket.Args {
    JarArgs(ThePlan(), Some(lane))
  }

  lemma LaneNumbers()
    ensures ThePlan().cost == 1.0 && ThePlan().monthlyQuota.None?
    ensures ArgsIn(HUMAN) == TokenBucket.Args(ThePlan().key, 1300.0, 0.001, 1.0)
    ensures ArgsIn(CRAWLER) == TokenBucket.Args(ThePlan().key, 500.0, 0.0006, 1.0)
  {
    assert Round(1300.0) == 1300.0 && Round(500.0) == 500.0;
  }

  /** Nobody is banned, and the jar holds so much on these terms at this instant. */
  ghost predicate Stands(w: World, now: int, lane: Lane, tokens: real) {
    var b := TokenBucket.JarFor(w.jars, now, ArgsIn(lane));
    w.book == BOOK && w.pilot.bans == map[] && b.tokens == tokens <= ArgsIn(lane).capacity && b.lastRefill == now
  }

  lemma PlanIs(w: World, now: int, lane: Lane)
    requires w.book == BOOK && w.pilot.bans == map[]
    ensures PlanFor(w, Asking(now, lane)) == Some(ThePlan()) && !Banned(w, Asking(now, lane))
  {
  }

  lemma DecidedBans(c: Automations.Config, p: Automations.Pilot, e: Automations.Event, now: int)
    requires e.reason != "burst" || (c.threshold >= 2 && e.tenant !in p.stormLog)
    ensures Automations.Decided(c, p, e, now).bans == p.bans
    ensures e.reason != "burst" ==> Automations.Decided(c, p, e, now).stormLog == p.stormLog
  {
    if Automations.Blocked(e) {
      assert Automations.Recent([], e.at, c.windowMs) == [];
      AutomationsProofs.StormAlone(c, p, e, now);
    } else {
      AutomationsProofs.OthersLeaveStorms(c, p, AutomationsProofs.Decide(e, now));
    }
  }

  lemma PilotBans(c: Automations.Config, w: World, now: int, lane: Lane)
    requires w.book == BOOK && w.pilot.bans == map[]
    requires TokenBucket.Check(w.jars, now, ArgsIn(lane)).1.allowed || (c.threshold >= 2 && WHO !in w.pilot.stormLog)
    ensures
      var w' := Checked(c, w, Asking(now, lane)).0;
      w'.pilot.bans == map[] && (TokenBucket.Check(w.jars, now, ArgsIn(lane)).1.allowed ==> w'.pilot.stormLog == w.pilot.stormLog)
  {
    var r, d := Asking(now, lane), TokenBucket.Check(w.jars, now, ArgsIn(lane)).1;
    var reason := ReasonFor(None, d.allowed);
    PlanIs(w, now, lane);
    LaneNumbers();
    DecidedBans(c, w.pilot, EventOf(now, WHO, reason == "", reason, None), now);
    assert Automations.Asked(w.pilot, WHO, now) == w.pilot;
  }

  /** One request is answered by the jar, and leaves everything else alone. */
  lemma Answered(c: Automations.Config, w: World, now: int, lane: Lane, tokens: real)
    requires Stands(w, now, lane, tokens) && lane in {HUMAN, CRAWLER}
    requires tokens >= 1.0 || (c.threshold >= 2 && WHO !in w.pilot.stormLog)
    ensures
      var (w', d) := Checked(c, w, Asking(now, lane));
      && AsksJar(c, w, Asking(now, lane)) && (d.allowed <==> tokens >= 1.0)
      && w'.book == BOOK && w'.pilot.bans == map[] && (d.allowed ==> w'.pilot.stormLog == w.pilot.stormLog)
      && w'.jars == w.jars[ThePlan().key := TokenBucket.Bucket(if tokens >= 1.0 then tokens - 1.0 else tokens, now,
                                                               ArgsIn(lane).capacity, ArgsIn(lane).refill)]
  {
    var r := Asking(now, lane);
    PlanIs(w, now, lane);
    LaneNumbers();
    WhatMoves(c, w, r);
    GatewayProofs.Admitted(c, w, r);
    ServedAtOnce(TokenBucket.JarFor(w.jars, now, ArgsIn(lane)), now, ArgsIn(lane));
    PilotBans(c, w, now, lane);
  }

  lemma ServedAtOnce(b: TokenBucket.Bucket, now: int, a: TokenBucket.Args)
    requires b.lastRefill == now && b.tokens <= a.capacity && a.cost == 1.0
    ensures TokenBucket.Serve(b, now, a).1.allowed <==> b.tokens >= 1.0
    ensures TokenBucket.Serve(b, now, a).0
            == TokenBucket.Bucket(if b.tokens >= 1.0 then b.tokens - 1.0 else b.tokens, now, a.capacity, a.refill)
  {
    assert TokenBucket.Accrued(0, a.refill) == 0.0;
  }

  // ---- The run ----------------------------------------------------------------------

  function Many(r: Request, n: nat): (ops: seq<Op>)
    ensures |ops| == n && forall i | 0 <= i < n :: ops[i] == Serve(r)
  {
    if n == 0 then [] else Many(r, n - 1) + [Serve(r)]
  }

  /** What the jar lets through by one operation. */
  function Gain(c: Automations.Config, w: World, op: Op): real {
    if op.Serve? && AsksJar(c, w, op.request) && PlanFor(w, op.request).value.key == ThePlan().key && Checked(c, w, op.request).1.allowed
    then PlanFor(w, op.request).value.cost else 0.0
  }

  function Total(c: Automations.Config, w: World, ops: seq<Op>): real {
    EndToEnd.Admitted(c, w, ops, ThePlan().key)
  }

  lemma OneOpMore(c: Automations.Config, w: World, ops: seq<Op>, op: Op)
    ensures Run(c, w, ops + [op]) == Step(c, Run(c, w, ops), op)
    ensures Total(c, w, ops + [op]) == Total(c, w, ops) + Gain(c, Run(c, w, ops), op)
  {
    assert (ops + [op])[..|ops|] == ops;
  }

  /** A human with a token in the jar gets through and takes it. */
  lemma Pays(c: Automations.Config, w: World, now: int, tokens: real)
    requires Stands(w, now, HUMAN, tokens) && tokens >= 1.0
    ensures
      var op := Serve(Asking(now, HUMAN));
      var w' := Step(c, w, op);
      && Stands(w', now, HUMAN, tokens - 1.0) && w'.pilot.stormLog == w.pilot.stormLog && ThePlan().key in w'.jars
      && w'.jars.Keys == w.jars.Keys + {ThePlan().key} && Gain(c, w, op) == 1.0
  {
    Answered(c, w, now, HUMAN, tokens);
    PlanIs(w, now, HUMAN);
    LaneNumbers();
  }

  /** As many requests in a row as the jar holds are let through. */
  lemma {:induction false} Drains(c: Automations.Config, w: World, ops: seq<Op>, now: int, tokens: real, n: nat)
    requires Stands(Run(c, w, ops), now, HUMAN, tokens) && tokens >= n as real && n > 0
    ensures
      var all := ops + Many(Asking(now, HUMAN), n);
      && Stands(Run(c, w, all), now, HUMAN, tokens - n as real) && Total(c, w, all) == Total(c, w, ops) + n as real
      && Run(c, w, all).pilot.stormLog == Run(c, w, ops).pilot.stormLog && ThePlan().key in Run(c, w, all).jars
    decreases n
  {
    var r := Asking(now, HUMAN);
    var before := ops + Many(r, n - 1);
    assert ops + Many(r, n) == before + [Serve(r)];
    if n == 1 {
      assert before == ops;
    } else {
      Drains(c, w, ops, now, tokens, n - 1);
    }
    Pays(c, Run(c, w, before), now, tokens - (n - 1) as real);
    OneOpMore(c, w, before, Serve(r));
  }

  /** Refused as a crawler, swept, and as good as new. */
  lemma Forgotten(c: Automations.Config, w: World)
    requires Stands(w, 0, HUMAN, 0.0) && ThePlan().key in w.jars && c.threshold >= 2 && w.pilot.stormLog == map[]
    ensures
      var crawl, sweep := Serve(Asking(0, CRAWLER)), Sweep({ThePlan().key}, LATER, IDLE);
      var w1 := Step(c, w, crawl);
      Gain(c, w, crawl) == 0.0 && Stands(Step(c, w1, sweep), LATER, HUMAN, 1300.0)
  {
    LaneNumbers();
    Answered(c, w, 0, CRAWLER, 0.0);
    assert TokenBucket.Accrued(LATER, 0.0006) == 504.0;
  }

  function Sudden(): seq<Op> {
    Many(Asking(0, HUMAN), 1300) + [Serve(Asking(0, CRAWLER))] + [Sweep({ThePlan().key}, LATER, IDLE)]
  }

  function Spree(): seq<Op> {
    Sudden() + Many(Asking(LATER, HUMAN), 1300)
  }

  lemma FirstHalf(c: Automations.Config, w: World)
    requires c.threshold >= 2 && w.book == BOOK && w.pilot == Automations.IDLE && w.jars == map[]
    ensures Stands(Run(c, w, Sudden()), LATER, HUMAN, 1300.0) && Total(c, w, Sudden()) == 1300.0
  {
    var first := Many(Asking(0, HUMAN), 1300);
    LaneNumbers();
    assert [] + first == first && Run(c, w, []) == w && Total(c, w, []) == 0.0;
    Drains(c, w, [], 0, 1300.0, 1300);
    Forgotten(c, Run(c, w, first));
    OneOpMore(c, w, first, Serve(Asking(0, CRAWLER)));
    OneOpMore(c, w, first + [Serve(Asking(0, CRAWLER))], Sweep({ThePlan().key}, LATER, IDLE));
  }

  lemma SpreeOps(i: nat)
    requires i < |Spree()|
    ensures Spree()[i] in {Serve(Asking(0, HUMAN)), Serve(Asking(0, CRAWLER)), Sweep({ThePlan().key}, LATER, IDLE), Serve(Asking(LATER, HUMAN))}
    ensures Spree()[i] == Serve(Asking(LATER, HUMAN)) <==> i > 1301
    ensures Spree()[i].Sweep? <==> i == 1301
  {
  }

  lemma SpreeIsFair()
    ensures TimesWithin(Spree(), 0, LATER) && Waits(Spree(), IDLE) && InLanes(Spree())
  {
    forall i: nat | i < |Spree()|
      ensures Spree()[i] in {Serve(Asking(0, HUMAN)), Serve(Asking(0, CRAWLER)), Sweep({ThePlan().key}, LATER, IDLE),
                             Serve(Asking(LATER, HUMAN))}
      ensures (Spree()[i] == Serve(Asking(LATER, HUMAN)) <==> i > 1301) && (Spree()[i].Sweep? <==> i == 1301)
    {
      SpreeOps(i);
    }
  }

  /** 2600 requests let through in 840 seconds, where a jar of 1300 and the refill make 2140. */
  lemma LanesBreakTheBound(c: Automations.Config, w: World)
    requires c.threshold >= 2 && w.book == BOOK && w.pilot == Automations.IDLE && w.jars == map[]
    ensures TimesWithin(Spree(), 0, LATER) && Waits(Spree(), IDLE) && Ceilings(c, w, Spree(), 1300.0, 0.001)
    ensures EndToEnd.Admitted(c, w, Spree(), ThePlan().key) == 2600.0
            > 2140.0 == TokenBucketProofs.Allowance(1300.0, 0.001, 0, LATER)
  {
    FirstHalf(c, w);
    Drains(c, w, Sudden(), LATER, 1300.0, 1300);
    SpreeIsFair();
    UnderCeilings(c, w, Spree());
    assert TokenBucket.Accrued(LATER, 0.001) == 840.0;
  }

  predicate InLane(r: Request) {
    r == Asking(r.now, HUMAN) || r == Asking(r.now, CRAWLER)
  }

  ghost predicate InLanes(ops: seq<Op>) {
    forall i | 0 <= i < |ops| :: ops[i].Sweep? || (ops[i].Serve? && InLane(ops[i].request))
  }

  lemma PlanMoves(w: World, r: Request)
    requires w.book == BOOK && InLane(r)
    ensures PlanFor(w, r) == Some(ThePlan())
  {
  }

  lemma {:induction false} UnderCeilings(c: Automations.Config, w: World, ops: seq<Op>)
    requires w.book == BOOK && InLanes(ops)
    ensures Run(c, w, ops).book == BOOK && Ceilings(c, w, ops, 1300.0, 0.001)
  {
    if ops != [] {
      var before, last := ops[..|ops| - 1], ops[|ops| - 1];
      var at := Run(c, w, before);
      UnderCeilings(c, w, before);
      LaneNumbers();
      if last.Serve? {
        assert ops[|ops| - 1] == last && InLane(last.request);
        WhatMoves(c, at, last.request);
        PlanMoves(at, last.request);
      }
    }
  }
}
