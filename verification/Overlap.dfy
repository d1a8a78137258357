module Overlap {
  // Requests overlap: each asks for the ban in one section and reports its decision in another.

  import opened Wrappers
  import opened Automations
  import opened AutomationsProofs
  import opened StormEvidence

  // ---- Where a ban comes from -------------------------------------------------------

  predicate SetByHand(op: Op, t: string) {
    op.BanTenant? && op.tenant == t
  }

  predicate LiftedByHand(op: Op, t: string) {
    op.UnbanTenant? && op.tenant == t
  }

  /** The k-th operation bans t: a cooldown, or someone by hand. */
  predicate SetAt(c: Config, ops: seq<Op>, t: string, k: nat) {
    TripAt(c, ops, t, k) || (k < |ops| && SetByHand(ops[k], t))
  }

  /** When a ban set by the operation runs out. */
  function Expiry(c: Config, op: Op): int {
    op.now + if op.BanTenant? && op.ms > 0 then op.ms else c.cooldownMs
  }

  /** Nobody sets or lifts a ban on t by hand between the two. */
  ghost predicate HandsOff(ops: seq<Op>, t: string, k: nat, i: nat)
    requires i <= |ops|
  {
    forall m | k < m < i :: !ByPeople(ops[m], t)
  }

  ghost predicate NoSetBetween(c: Config, ops: seq<Op>, t: string, k: nat, i: nat) {
    forall m: nat | k < m < i :: !SetAt(c, ops, t, m)
  }

  lemma SetBans(c: Config, p: Pilot, op: Op, t: string)
    requires TripsOn(c, p, op, t) || SetByHand(op, t)
    ensures t in Step(c, p, op).bans && Step(c, p, op).bans[t] == Expiry(c, op)
  {
    if op.Decide? {
      StormAlone(c, p, op.e, op.now);
    }
  }

  /** Nothing else does: a ban on file after an operation that sets none was there before it. */
  lemma OthersSetNone(c: Config, p: Pilot, op: Op, t: string)
    requires !TripsOn(c, p, op, t) && !SetByHand(op, t) && t in Step(c, p, op).bans
    ensures t in p.bans && p.bans[t] == Step(c, p, op).bans[t] && !LiftedByHand(op, t)
  {
    if op.Decide? && Blocked(op.e) {
      StormAlone(c, p, op.e, op.now);
    } else {
      OthersLeaveStorms(c, p, op);
    }
  }

  /** The ban on file for t before the m-th operation. */
  function BanOn(c: Config, ops: seq<Op>, t: string, m: nat): Option<int> {
    if m <= |ops| && t in Run(c, ops[..m]).bans then Some(Run(c, ops[..m]).bans[t]) else None
  }

  predicate HandAt(ops: seq<Op>, t: string, m: nat) {
    m < |ops| && ByPeople(ops[m], t)
  }

  lemma SetJust(c: Config, ops: seq<Op>, t: string, k: nat)
    requires SetAt(c, ops, t, k)
    ensures BanOn(c, ops, t, k + 1) == Some(Expiry(c, ops[k]))
  {
    RunStep(c, ops, k + 1);
    SetBans(c, Run(c, ops[..k]), ops[k], t);
  }

  lemma ThereBefore(c: Config, ops: seq<Op>, t: string, k: nat)
    requires k < |ops| && !SetAt(c, ops, t, k) && BanOn(c, ops, t, k + 1).Some?
    ensures BanOn(c, ops, t, k) == BanOn(c, ops, t, k + 1) && !HandAt(ops, t, k)
  {
    RunStep(c, ops, k + 1);
    OthersSetNone(c, Run(c, ops[..k]), ops[k], t);
  }

  /** Something that is there at i and was not at j, and only comes by being set, was last set
      somewhere in between. */
  lemma {:induction false} LastSetting(on: nat -> Option<int>, sets: nat -> bool, hands: nat -> bool, j: nat,
                                       i: nat) returns (k: nat)
    requires j <= i && on(j).None? && on(i).Some?
    requires forall m: nat | j <= m < i && !sets(m) && on(m + 1).Some? :: on(m) == on(m + 1) && !hands(m)
    ensures j <= k < i && sets(k) && on(k + 1) == on(i)
    ensures forall m: nat | k < m < i :: !sets(m) && !hands(m)
    decreases i
  {
    assert i != j;
    if sets(i - 1) {
      k := i - 1;
    } else {
      k := LastSetting(on, sets, hands, j, i - 1);
    }
  }

  /** A ban on file at i that was not there at j was set in between, and not touched since. */
  lemma LastSet(c: Config, ops: seq<Op>, t: string, j: nat, i: nat) returns (k: nat)
    requires j <= i <= |ops| && BanOn(c, ops, t, j).None? && BanOn(c, ops, t, i).Some?
    ensures j <= k < i && SetAt(c, ops, t, k) && BanOn(c, ops, t, i) == Some(Expiry(c, ops[k]))
    ensures HandsOff(ops, t, k, i) && NoSetBetween(c, ops, t, k, i)
  {
    var on, sets, hands := (m: nat) => BanOn(c, ops, t, m), (m: nat) => SetAt(c, ops, t, m), (m: nat) => HandAt(ops, t, m);
    forall m: nat | j <= m < i && !sets(m) && on(m + 1).Some?
      ensures on(m) == on(m + 1) && !hands(m)
    {
      ThereBefore(c, ops, t, m);
    }
    k := LastSetting(on, sets, hands, j, i);
    SetJust(c, ops, t, k);
    NoneTouched(c, ops, t, k, i, sets, hands);
  }

  lemma NoneTouched(c: Config, ops: seq<Op>, t: string, k: nat, i: nat, sets: nat -> bool, hands: nat -> bool)
    requires i <= |ops| && forall m: nat :: sets(m) == SetAt(c, ops, t, m) && hands(m) == HandAt(ops, t, m)
    requires forall m: nat | k < m < i :: !sets(m) && !hands(m)
    ensures HandsOff(ops, t, k, i) && NoSetBetween(c, ops, t, k, i)
  {
    forall m | k < m < i
      ensures !ByPeople(ops[m], t)
    {
      assert !hands(m);
    }
  }

  /** With clocks in order a ban stays on file until it has run out, or someone intervenes. */
  lemma {:induction false} SetHolds(c: Config, ops: seq<Op>, t: string, k: nat, i: nat)
    requires k < i <= |ops| && ClocksForward(ops) && SetAt(c, ops, t, k) && HandsOff(ops, t, k, i)
    ensures Holds(Run(c, ops[..i]), t, Expiry(c, ops[k]), ops[i - 1].now)
    decreases i
  {
    if i == k + 1 {
      SetJust(c, ops, t, k);
    } else {
      SetHolds(c, ops, t, k, i - 1);
      NextHolds(c, ops, t, Expiry(c, ops[k]), i);
    }
  }

  /** A ban set at k that still holds at i: not touched by hand since, and not run out. */
  ghost predicate LiveFrom(c: Config, ops: seq<Op>, t: string, k: nat, i: nat)
    requires i < |ops|
  {
    k < i && SetAt(c, ops, t, k) && HandsOff(ops, t, k, i) && Expiry(c, ops[k]) > ops[i].now
  }

  /** The j-th operation asked about t and was told there is no ban. */
  predicate Clear(c: Config, ops: seq<Op>, t: string, j: nat) {
    j < |ops| && ops[j].Ask? && ops[j].tenant == t && !Banned(Run(c, ops[..j]), t, ops[j].now)
  }

  lemma ClearReaps(c: Config, ops: seq<Op>, t: string, j: nat)
    requires Clear(c, ops, t, j)
    ensures BanOn(c, ops, t, j + 1).None?
  {
    RunStep(c, ops, j + 1);
  }

  lemma BannedThenSet(c: Config, ops: seq<Op>, t: string, j: nat, i: nat) returns (k: nat)
    requires Clear(c, ops, t, j) && j < i && UnderBan(c, ops, t, i)
    ensures j < k && LiveFrom(c, ops, t, k, i) && NoSetBetween(c, ops, t, k, i)
  {
    ClearReaps(c, ops, t, j);
    k := LastSet(c, ops, t, j + 1, i);
  }

  lemma SetThenBanned(c: Config, ops: seq<Op>, t: string, k: nat, i: nat)
    requires i < |ops| && LiveFrom(c, ops, t, k, i) && ClocksForward(ops)
    ensures UnderBan(c, ops, t, i)
  {
    SetHolds(c, ops, t, k, i);
    assert ops[i - 1].now <= ops[i].now;
  }

  // ---- Requests in sections ---------------------------------------------------------

  /** What the autopilot sees of a run: a request asks, and may later report, naming its own ask by
      its place in the run.  Anyone may ask; people may ban and lift. */
  datatype Section =
    | Asks(tenant: string, now: int)
    | Decides(ask: nat, e: Event, now: int)
    | Bans(tenant: string, ms: int, now: int)
    | Lifts(tenant: string, now: int)

  function OpOf(s: Section): Op {
    match s
    case Asks(t, now) => Ask(t, now)
    case Decides(_, e, now) => Decide(e, now)
    case Bans(t, ms, now) => BanTenant(t, ms, now)
    case Lifts(t, now) => UnbanTenant(t, now)
  }

  function Ops(run: seq<Section>): (ops: seq<Op>)
    ensures |ops| == |run| && forall i | 0 <= i < |run| :: ops[i] == OpOf(run[i])
  {
    seq(|run|, i requires 0 <= i < |run| => OpOf(run[i]))
  }

  /** Only requests told there is no ban report, each once, after it asked. */
  ghost predicate Legal(c: Config, run: seq<Section>) {
    && (forall i | 0 <= i < |run| && run[i].Decides? :: run[i].ask < i && Clear(c, Ops(run), run[i].e.tenant, run[i].ask))
    && (forall i, j | 0 <= i < j < |run| && run[i].Decides? && run[j].Decides? :: run[i].ask != run[j].ask)
  }

  predicate ReportsFor(s: Section, t: string) {
    s.Decides? && s.e.tenant == t
  }

  /** A request is decided under a live ban exactly when a cooldown or a hand set one between its own
      ask and its decision, nobody touched it since, and it runs out later. */
  lemma UnderBanIff(c: Config, run: seq<Section>, t: string, i: nat)
    requires Legal(c, run) && ClocksForward(Ops(run)) && i < |run| && ReportsFor(run[i], t)
    ensures UnderBan(c, Ops(run), t, i) <==> exists k :: run[i].ask < k && LiveFrom(c, Ops(run), t, k, i)
  {
    var ops := Ops(run);
    if UnderBan(c, ops, t, i) {
      var k := BannedThenSet(c, ops, t, run[i].ask, i);
      assert run[i].ask < k && LiveFrom(c, ops, t, k, i);
    }
    if k: nat :| run[i].ask < k && LiveFrom(c, ops, t, k, i) {
      SetThenBanned(c, ops, t, k, i);
    }
  }

  // ---- What a cooldown can rest on --------------------------------------------------

  /** The block at i is among those that count when the one at n is decided. */
  ghost predicate Counts(c: Config, ops: seq<Op>, t: string, n: nat, i: nat)
    requires n < |ops|
  {
    i < n && Hit(ops[i], t) && NoTripFrom(c, ops, t, i, n) && StaysRecent(c, ops, t, i, n + 1)
  }

  lemma EvidenceAt(c: Config, ops: seq<Op>, t: string, n: nat, i: nat)
    requires n < |ops| && Hit(ops[n], t)
    ensures i in Evidence(c, ops[..n + 1], t) <==> i == n || Counts(c, ops, t, n, i)
  {
    InEvidence(c, ops[..n + 1], t, i);
    assert ops[..n + 1][..n] == ops[..n];
    if i < n && Hit(ops[i], t) {
      NoTripBefore(c, ops, t, i, n);
      RecentNext(c, ops, t, i, n);
    }
  }

  /** The cooldown set at n rests on the block at i, which was decided under a ban. */
  ghost predicate Rests(c: Config, ops: seq<Op>, t: string, n: nat, i: nat)
    requires n < |ops| && Hit(ops[n], t)
  {
    i in Evidence(c, ops[..n + 1], t) && UnderBan(c, ops, t, i)
  }

  lemma RestsIff(c: Config, ops: seq<Op>, t: string, n: nat, i: nat)
    requires TripAt(c, ops, t, n)
    ensures Rests(c, ops, t, n, i) <==> Counts(c, ops, t, n, i) && UnderBan(c, ops, t, i)
  {
    EvidenceAt(c, ops, t, n, i);
  }

  /** The block at i counts at n, and was in flight at k, when a ban was set that outlasted it. */
  ghost predicate Straddles(c: Config, run: seq<Section>, t: string, n: nat, i: nat, k: nat)
    requires n < |run|
  {
    Counts(c, Ops(run), t, n, i) && run[i].ask < k && LiveFrom(c, Ops(run), t, k, i)
  }

  /** A cooldown rests on a block decided under a ban exactly when some block that counts was in
      flight when a ban was set that outlasted it. */
  lemma RestsOnBannedIff(c: Config, run: seq<Section>, t: string, n: nat)
    requires Legal(c, run) && ClocksForward(Ops(run)) && n < |run| && TripAt(c, Ops(run), t, n)
    ensures (exists i: nat :: Rests(c, Ops(run), t, n, i)) <==> exists i: nat, k: nat :: Straddles(c, run, t, n, i, k)
  {
    if i: nat :| Rests(c, Ops(run), t, n, i) {
      RestsIff(c, Ops(run), t, n, i);
      UnderBanIff(c, run, t, i);
      var k :| run[i].ask < k && LiveFrom(c, Ops(run), t, k, i);
      assert Straddles(c, run, t, n, i, k);
    }
    if i: nat, k: nat :| Straddles(c, run, t, n, i, k) {
      UnderBanIff(c, run, t, i);
      RestsIff(c, Ops(run), t, n, i);
    }
  }

  // ---- How many ---------------------------------------------------------------------

  predicate Reported(run: seq<Section>, j: nat, k: nat)
    requires k < |run|
  {
    exists i | 0 <= i <= k :: run[i].Decides? && run[i].ask == j
  }

  /** The requests of t told there is no ban before k, and not decided by then. */
  ghost function InFlight(c: Config, run: seq<Section>, t: string, k: nat): set<nat>
    requires k < |run|
  {
    set j: nat | j < k && Clear(c, Ops(run), t, j) && !Reported(run, j, k)
  }

  /** The blocks of t between the two decided under a ban. */
  ghost function BannedBlocks(c: Config, run: seq<Section>, t: string, k: nat, n: nat): set<nat>
    requires n <= |run|
  {
    set i: nat | k < i < n && Hit(Ops(run)[i], t) && UnderBan(c, Ops(run), t, i)
  }

  lemma BannedWasInFlight(c: Config, run: seq<Section>, t: string, k: nat, n: nat, i: nat)
    requires Legal(c, run) && k < n <= |run| && SetAt(c, Ops(run), t, k) && NoSetBetween(c, Ops(run), t, k, n)
    requires i in BannedBlocks(c, run, t, k, n)
    ensures run[i].Decides? && run[i].ask in InFlight(c, run, t, k)
  {
    var m := BannedThenSet(c, Ops(run), t, run[i].ask, i);
    assert m == k;
  }

  lemma {:induction false} NoMore(blocks: set<nat>, asks: set<nat>, run: seq<Section>)
    requires forall i | i in blocks :: i < |run| && run[i].Decides? && run[i].ask in asks
    requires forall i, j | i in blocks && j in blocks && i != j :: run[i].ask != run[j].ask
    ensures |blocks| <= |asks|
  {
    if blocks != {} {
      var i :| i in blocks;
      NoMore(blocks - {i}, asks - {run[i].ask}, run);
    }
  }

  /** A ban leaks no more blocks than it caught requests in flight: from when it is set to when the
      next one is, a client's blocks decided under a ban are at most its requests then undecided. */
  lemma LeaksAtMostInFlight(c: Config, run: seq<Section>, t: string, k: nat, n: nat)
    requires Legal(c, run) && k < n <= |run| && SetAt(c, Ops(run), t, k) && NoSetBetween(c, Ops(run), t, k, n)
    ensures |BannedBlocks(c, run, t, k, n)| <= |InFlight(c, run, t, k)|
  {
    var blocks := BannedBlocks(c, run, t, k, n);
    forall i | i in blocks
      ensures run[i].Decides? && run[i].ask in InFlight(c, run, t, k)
    {
      BannedWasInFlight(c, run, t, k, n, i);
    }
    NoMore(blocks, InFlight(c, run, t, k), run);
  }

  /** The blocks a cooldown rests on that were decided under a ban. */
  ghost function RestsOn(c: Config, run: seq<Section>, t: string, n: nat): set<nat>
    requires n < |run| && Hit(Ops(run)[n], t)
  {
    set i: nat | i < n && Rests(c, Ops(run), t, n, i)
  }

  lemma RestSinceTrip(c: Config, ops: seq<Op>, t: string, k: nat, n: nat, i: nat)
    requires k < n && TripAt(c, ops, t, k) && TripAt(c, ops, t, n) && Rests(c, ops, t, n, i)
    ensures k < i < n && Hit(ops[i], t)
  {
    RestsIff(c, ops, t, n, i);
  }

  /** So a cooldown that follows another rests on no more of them than were in flight at the first. */
  lemma RestsOnAtMostInFlight(c: Config, run: seq<Section>, t: string, k: nat, n: nat)
    requires Legal(c, run) && k < n < |run| && TripAt(c, Ops(run), t, k) && TripAt(c, Ops(run), t, n)
    requires NoSetBetween(c, Ops(run), t, k, n)
    ensures RestsOn(c, run, t, n) <= BannedBlocks(c, run, t, k, n) && |RestsOn(c, run, t, n)| <= |InFlight(c, run, t, k)|
  {
    forall i | i in RestsOn(c, run, t, n)
      ensures i in BannedBlocks(c, run, t, k, n)
    {
      RestSinceTrip(c, Ops(run), t, k, n, i);
    }
    LeaksAtMostInFlight(c, run, t, k, n);
    Fewer(RestsOn(c, run, t, n), BannedBlocks(c, run, t, k, n));
  }

  lemma {:induction false} Fewer(a: set<nat>, b: set<nat>)
    requires a <= b
    ensures |a| <= |b|
  {
    if a != {} {
      var x :| x in a;
      Fewer(a - {x}, b - {x});
    }
  }

  /** Where no ban on t is set while a request of t is in flight, none is decided under one. */
  lemma NoOverlapNoBan(c: Config, run: seq<Section>, t: string, i: nat)
    requires Legal(c, run) && i < |run| && ReportsFor(run[i], t)
    requires forall k: nat | run[i].ask < k < i :: !SetAt(c, Ops(run), t, k)
    ensures !UnderBan(c, Ops(run), t, i)
  {
    if UnderBan(c, Ops(run), t, i) {
      var _ := BannedThenSet(c, Ops(run), t, run[i].ask, i);
    }
  }

  // ---- When it cannot happen --------------------------------------------------------

  /** Every report comes soon after its ask, about an event in between. */
  ghost predicate Prompt(run: seq<Section>, t: string, latency: nat) {
    forall i | 0 <= i < |run| && ReportsFor(run[i], t) ::
      run[i].ask < i && run[run[i].ask].now <= run[i].e.at <= run[i].now <= run[run[i].ask].now + latency
  }

  ghost predicate NoHands(run: seq<Section>, t: string) {
    forall i | 0 <= i < |run| :: !ByPeople(OpOf(run[i]), t)
  }

  /** While nobody intervenes, nobody is told there is no ban before it has run out. */
  lemma ClearsAfter(c: Config, ops: seq<Op>, t: string, k: nat, j: nat)
    requires ClocksForward(ops) && k < j && SetAt(c, ops, t, k) && Clear(c, ops, t, j) && HandsOff(ops, t, k, j)
    ensures Expiry(c, ops[k]) <= ops[j].now
  {
    SetHolds(c, ops, t, k, j);
    assert ops[j - 1].now <= ops[j].now;
  }

  lemma TripsAfter(c: Config, ops: seq<Op>, t: string, k: nat, n: nat)
    requires ClocksForward(ops) && k < n && SetAt(c, ops, t, k) && TripAt(c, ops, t, n) && HandsOff(ops, t, k, n)
    ensures Expiry(c, ops[k]) <= ops[n].now
  {
    SetHolds(c, ops, t, k, n);
    assert ops[n - 1].now <= ops[n].now;
  }

  lemma SoonAfter(run: seq<Section>, t: string, k: nat, n: nat, latency: nat)
    requires ClocksForward(Ops(run)) && Prompt(run, t, latency) && k < n < |run| && ReportsFor(run[n], t)
    ensures run[n].ask <= k ==> Ops(run)[n].now <= Ops(run)[k].now + latency
  {
    if run[n].ask < k {
      assert Ops(run)[run[n].ask].now <= Ops(run)[k].now;
    }
  }

  /** The request that sets off a cooldown after one that outlasts the latency was not in flight at
      that one: it asked when it was over. */
  lemma NextAsksLater(c: Config, run: seq<Section>, t: string, k: nat, n: nat, latency: nat)
    requires Legal(c, run) && ClocksForward(Ops(run)) && Prompt(run, t, latency) && NoHands(run, t)
    requires k < n && TripAt(c, Ops(run), t, k) && TripAt(c, Ops(run), t, n) && c.cooldownMs > latency
    ensures run[n].Decides? && run[k].now + c.cooldownMs <= run[n].e.at
  {
    var ops, j := Ops(run), run[n].ask;
    TripsAfter(c, ops, t, k, n);
    SoonAfter(run, t, k, n, latency);
    if k < j {
      ClearsAfter(c, ops, t, k, j);
    }
  }

  lemma BannedIsEarly(c: Config, run: seq<Section>, t: string, i: nat, latency: nat) returns (k: nat)
    requires Legal(c, run) && ClocksForward(Ops(run)) && Prompt(run, t, latency) && NoHands(run, t)
    requires i < |run| && ReportsFor(run[i], t) && UnderBan(c, Ops(run), t, i)
    ensures k < i && TripAt(c, Ops(run), t, k) && run[k].now <= run[i].now < run[k].now + c.cooldownMs
    ensures run[i].e.at <= run[k].now + latency
  {
    UnderBanIff(c, run, t, i);
    k :| run[i].ask < k && LiveFrom(c, Ops(run), t, k, i);
    assert Ops(run)[run[i].ask].now <= Ops(run)[k].now <= Ops(run)[i].now;
  }

  /** A cooldown that outlasts the window and one latency never leads to another on what it caught
      in flight, as long as people leave the client alone; nor does one of no length. */
  lemma LongCooldownForgets(c: Config, run: seq<Section>, t: string, n: nat, i: nat, latency: nat)
    requires Legal(c, run) && ClocksForward(Ops(run)) && Prompt(run, t, latency) && NoHands(run, t)
    requires TripAt(c, Ops(run), t, n) && c.windowMs > 0 && (c.cooldownMs <= 0 || c.cooldownMs >= c.windowMs + latency)
    ensures !Rests(c, Ops(run), t, n, i)
  {
    RestsIff(c, Ops(run), t, n, i);
    if Counts(c, Ops(run), t, n, i) && UnderBan(c, Ops(run), t, i) {
      var k := BannedIsEarly(c, run, t, i, latency);
      NextAsksLater(c, run, t, k, n, latency);
    }
  }

  // ---- When it does -----------------------------------------------------------------

  /** A client sends two bursts of q requests, and one more, before any is decided.  The first burst
      sets off a cooldown, or someone bans the client by hand (the fillers are asks); the second is
      decided under that ban, `hold` after; then the ban is over, or lifted; and one request more, of
      those waiting or a new one, is decided at `end` about an event at `last`. */
  datatype Shape = Shape(q: nat, hand: bool, hold: int, length: int, last: int, end: int, lastAsk: nat)

  function LeakAt(sh: Shape, e: Event, i: nat): Section {
    var q := sh.q;
    if i <= 2 * q then Asks(e.tenant, e.at)
    else if i <= 3 * q then
      (if !sh.hand then Decides(i - 2 * q - 1, e, e.at)
       else if i < 3 * q then Asks(e.tenant, e.at)
       else Bans(e.tenant, sh.length, e.at))
    else if i <= 4 * q then Decides(i - 2 * q - 1, e.(at := e.at + sh.hold), e.at + sh.hold)
    else if i == 4 * q + 1 then (if sh.hand then Lifts(e.tenant, e.at + sh.end) else Asks(e.tenant, e.at + sh.end))
    else Decides(sh.lastAsk, e.(at := e.at + sh.last), e.at + sh.end)
  }

  function Leak(sh: Shape, e: Event): (run: seq<Section>)
    ensures |run| == 4 * sh.q + 3 && forall i | 0 <= i < |run| :: run[i] == LeakAt(sh, e, i)
  {
    seq(4 * sh.q + 3, i requires 0 <= i => LeakAt(sh, e, i))
  }

  /** Blocks enough to trip, and no earlier; a second burst under the ban; a last block after it and
      inside the window. */
  ghost predicate Leaky(c: Config, sh: Shape, e: Event) {
    && Blocked(e) && c.windowMs > 0 && sh.q == Enough(c)
    && 0 <= sh.hold < sh.length && sh.last - sh.hold < c.windowMs && sh.hold <= sh.end
    && (if sh.hand then sh.lastAsk == 2 * sh.q
        else sh.length == c.cooldownMs <= sh.end && (sh.lastAsk == 2 * sh.q || sh.lastAsk == 4 * sh.q + 1))
  }

  /** The blocks a cooldown needs, one at least. */
  function Enough(c: Config): (q: nat)
    ensures q >= 1
  {
    if c.threshold < 1 then 1 else c.threshold
  }

  ghost predicate IsLeak(sh: Shape, e: Event, ops: seq<Op>) {
    |ops| == 4 * sh.q + 3 && forall i | 0 <= i < |ops| :: ops[i] == OpOf(LeakAt(sh, e, i))
  }

  /** How far into the two bursts. */
  function Bursts(sh: Shape, m: nat): nat {
    if m <= 2 * sh.q then 0 else m - 2 * sh.q - 1
  }

  ghost predicate After(sh: Shape, p: Pilot, e: Event, d: nat) {
    var log := Log(p, e.tenant);
    if d < sh.q then
      && (forall a | a in log :: a == e.at)
      && e.tenant !in p.bans && |log| == if sh.hand then 0 else d
    else
      && (forall a | a in log :: a == e.at + sh.hold)
      && e.tenant in p.bans && p.bans[e.tenant] == e.at + sh.length && |log| == d - sh.q
  }

  lemma FirstBurst(c: Config, sh: Shape, p: Pilot, e: Event, d: nat)
    requires Leaky(c, sh, e) && !sh.hand && d < sh.q && After(sh, p, e, d)
    ensures After(sh, Step(c, p, Decide(e, e.at)), e, d + 1)
    ensures TripsOn(c, p, Decide(e, e.at), e.tenant) <==> d + 1 == sh.q
  {
    AllRecent(Log(p, e.tenant), e.at, c.windowMs);
    StormAlone(c, p, e, e.at);
  }

  lemma SecondBurst(c: Config, sh: Shape, p: Pilot, e: Event, d: nat)
    requires Leaky(c, sh, e) && sh.q <= d && After(sh, p, e, d)
    ensures
      var op := Decide(e.(at := e.at + sh.hold), e.at + sh.hold);
      After(sh, Step(c, p, op), e, d + 1) && !TripsOn(c, p, op, e.tenant)
  {
    AllRecent(Log(p, e.tenant), e.at + sh.hold, c.windowMs);
    StormAlone(c, p, e.(at := e.at + sh.hold), e.at + sh.hold);
  }

  /** An ask before the ban changes nothing that matters. */
  lemma Waits(c: Config, sh: Shape, p: Pilot, e: Event, d: nat)
    requires d < sh.q && After(sh, p, e, d)
    ensures After(sh, Step(c, p, Ask(e.tenant, e.at)), e, d)
  {
    OthersLeaveStorms(c, p, Ask(e.tenant, e.at));
  }

  lemma BannedByHand(c: Config, sh: Shape, p: Pilot, e: Event)
    requires Leaky(c, sh, e) && sh.hand && After(sh, p, e, sh.q - 1)
    ensures After(sh, Step(c, p, BanTenant(e.tenant, sh.length, e.at)), e, sh.q)
  {
    OthersLeaveStorms(c, p, BanTenant(e.tenant, sh.length, e.at));
  }

  /** One step of the run, and whether it sets off the cooldown. */
  ghost predicate Goes(c: Config, sh: Shape, e: Event, op: Op, m: nat, p: Pilot) {
    && After(sh, Step(c, p, op), e, Bursts(sh, m + 1))
    && (TripsOn(c, p, op, e.tenant) <==> m == 3 * sh.q && !sh.hand)
  }

  lemma AsksGo(c: Config, sh: Shape, e: Event, op: Op, m: nat, p: Pilot)
    requires sh.q >= 1 && After(sh, p, e, Bursts(sh, m)) && op == Ask(e.tenant, e.at)
    requires m <= 2 * sh.q || (sh.hand && m < 3 * sh.q)
    ensures Goes(c, sh, e, op, m, p)
  {
    Waits(c, sh, p, e, Bursts(sh, m));
  }

  lemma BurstsGo(c: Config, sh: Shape, e: Event, op: Op, m: nat, p: Pilot)
    requires Leaky(c, sh, e) && !sh.hand && After(sh, p, e, Bursts(sh, m))
    requires 2 * sh.q < m <= 3 * sh.q && op == Decide(e, e.at)
    ensures Goes(c, sh, e, op, m, p)
  {
    FirstBurst(c, sh, p, e, Bursts(sh, m));
  }

  lemma BanGoes(c: Config, sh: Shape, e: Event, op: Op, m: nat, p: Pilot)
    requires Leaky(c, sh, e) && sh.hand && After(sh, p, e, Bursts(sh, m))
    requires m == 3 * sh.q && op == BanTenant(e.tenant, sh.length, e.at)
    ensures Goes(c, sh, e, op, m, p)
  {
    BannedByHand(c, sh, p, e);
  }

  lemma SecondGoes(c: Config, sh: Shape, e: Event, op: Op, m: nat, p: Pilot)
    requires Leaky(c, sh, e) && After(sh, p, e, Bursts(sh, m))
    requires 3 * sh.q < m && op == Decide(e.(at := e.at + sh.hold), e.at + sh.hold)
    ensures Goes(c, sh, e, op, m, p)
  {
    SecondBurst(c, sh, p, e, Bursts(sh, m));
  }

  lemma LeakStep(c: Config, sh: Shape, e: Event, ops: seq<Op>, m: nat, p: Pilot)
    requires Leaky(c, sh, e) && IsLeak(sh, e, ops) && m <= 4 * sh.q && After(sh, p, e, Bursts(sh, m))
    ensures Goes(c, sh, e, ops[m], m, p)
  {
    if m <= 2 * sh.q || (sh.hand && m < 3 * sh.q) {
      AsksGo(c, sh, e, ops[m], m, p);
    } else if m > 3 * sh.q {
      SecondGoes(c, sh, e, ops[m], m, p);
    } else if sh.hand {
      BanGoes(c, sh, e, ops[m], m, p);
    } else {
      BurstsGo(c, sh, e, ops[m], m, p);
    }
  }

  ghost predicate Here(c: Config, sh: Shape, e: Event, ops: seq<Op>, m: nat)
    requires m <= |ops|
  {
    After(sh, Run(c, ops[..m]), e, Bursts(sh, m))
  }

  lemma LeakStarts(c: Config, sh: Shape, e: Event, ops: seq<Op>)
    requires Leaky(c, sh, e)
    ensures Here(c, sh, e, ops, 0)
  {
  }

  lemma LeakNext(c: Config, sh: Shape, e: Event, ops: seq<Op>, m: nat)
    requires Leaky(c, sh, e) && IsLeak(sh, e, ops) && m <= 4 * sh.q && Here(c, sh, e, ops, m)
    ensures Here(c, sh, e, ops, m + 1)
  {
    RunStep(c, ops, m + 1);
    LeakStep(c, sh, e, ops, m, Run(c, ops[..m]));
  }

  lemma {:induction false} LeakGoes(c: Config, sh: Shape, e: Event, ops: seq<Op>, m: nat)
    requires Leaky(c, sh, e) && IsLeak(sh, e, ops) && m <= 4 * sh.q + 1
    ensures Here(c, sh, e, ops, m)
  {
    if m == 0 {
      LeakStarts(c, sh, e, ops);
    } else {
      LeakGoes(c, sh, e, ops, m - 1);
      LeakNext(c, sh, e, ops, m - 1);
    }
  }

  lemma LeakTripsAt(c: Config, sh: Shape, e: Event, ops: seq<Op>, m: nat)
    requires Leaky(c, sh, e) && IsLeak(sh, e, ops) && m <= 4 * sh.q + 1
    ensures TripAt(c, ops, e.tenant, m) <==> m == 3 * sh.q && !sh.hand
  {
    if m <= 4 * sh.q {
      LeakGoes(c, sh, e, ops, m);
      LeakStep(c, sh, e, ops, m, Run(c, ops[..m]));
    }
  }

  lemma {:induction false} AllKept(log: seq<int>, at: int, later: int, w: int)
    requires later - at < w && forall a | a in log :: a == at
    ensures Recent(log, later, w) == log
  {
    if log != [] {
      var n := |log| - 1;
      assert forall a | a in log[..n] :: a in log;
      AllKept(log[..n], at, later, w);
      assert log[n] in log && log == log[..n] + [log[n]];
    }
  }

  /** The ban is over, and the last block finds the second burst in the log. */
  lemma LastTrips(c: Config, sh: Shape, p: Pilot, e: Event, op: Op)
    requires Leaky(c, sh, e) && After(sh, p, e, 2 * sh.q)
    requires op == if sh.hand then UnbanTenant(e.tenant, e.at + sh.end) else Ask(e.tenant, e.at + sh.end)
    ensures TripsOn(c, Step(c, p, op), Decide(e.(at := e.at + sh.last), e.at + sh.end), e.tenant)
    ensures !sh.hand ==> !Banned(p, e.tenant, e.at + sh.end)
  {
    AllKept(Log(p, e.tenant), e.at + sh.hold, e.at + sh.last, c.windowMs);
    OthersLeaveStorms(c, p, op);
  }

  lemma TripIf(c: Config, ops: seq<Op>, t: string, j: nat, p: Pilot)
    requires j < |ops| && Run(c, ops[..j]) == p && TripsOn(c, p, ops[j], t)
    ensures TripAt(c, ops, t, j)
  {
  }

  lemma ThenTrips(c: Config, ops: seq<Op>, t: string, m: nat, p: Pilot)
    requires m + 1 < |ops| && Run(c, ops[..m]) == p && TripsOn(c, Step(c, p, ops[m]), ops[m + 1], t)
    ensures TripAt(c, ops, t, m + 1)
  {
    RunStep(c, ops, m + 1);
    TripIf(c, ops, t, m + 1, Step(c, p, ops[m]));
  }

  lemma LeakLast(sh: Shape, e: Event, ops: seq<Op>)
    requires IsLeak(sh, e, ops)
    ensures
      var late := e.at + sh.end;
      && ops[4 * sh.q + 1] == (if sh.hand then UnbanTenant(e.tenant, late) else Ask(e.tenant, late))
      && ops[4 * sh.q + 2] == Decide(e.(at := e.at + sh.last), late)
  {
  }

  lemma LeakEnds(c: Config, sh: Shape, e: Event, ops: seq<Op>)
    requires Leaky(c, sh, e) && IsLeak(sh, e, ops)
    ensures TripAt(c, ops, e.tenant, 4 * sh.q + 2) && (!sh.hand ==> Clear(c, ops, e.tenant, 4 * sh.q + 1))
  {
    var m := 4 * sh.q + 1;
    var p := Run(c, ops[..m]);
    LeakGoes(c, sh, e, ops, m);
    LeakLast(sh, e, ops);
    LastTrips(c, sh, p, e, ops[m]);
    ThenTrips(c, ops, e.tenant, m, p);
  }

  lemma LeakClears(c: Config, sh: Shape, e: Event, ops: seq<Op>, m: nat)
    requires Leaky(c, sh, e) && IsLeak(sh, e, ops) && m <= 2 * sh.q
    ensures Clear(c, ops, e.tenant, m)
  {
    LeakGoes(c, sh, e, ops, m);
  }

  function NowAt(sh: Shape, e: Event, i: nat): int {
    if i <= 3 * sh.q then e.at else if i <= 4 * sh.q then e.at + sh.hold else e.at + sh.end
  }

  lemma LeakTimes(sh: Shape, e: Event, i: nat)
    ensures OpOf(LeakAt(sh, e, i)).now == NowAt(sh, e, i)
  {
  }

  lemma LeakClocks(c: Config, sh: Shape, e: Event)
    requires Leaky(c, sh, e)
    ensures ClocksForward(Ops(Leak(sh, e)))
  {
    var ops := Ops(Leak(sh, e));
    forall i | 0 <= i < |ops|
      ensures ops[i].now == NowAt(sh, e, i)
    {
      LeakTimes(sh, e, i);
    }
  }

  lemma LeakPrompt(c: Config, sh: Shape, e: Event, latency: nat)
    requires Leaky(c, sh, e) && PromptShape(sh, latency)
    ensures Prompt(Leak(sh, e), e.tenant, latency)
  {
    var run := Leak(sh, e);
    forall i | 0 <= i < |run| && ReportsFor(run[i], e.tenant)
      ensures run[i].ask < i && run[run[i].ask].now <= run[i].e.at <= run[i].now <= run[run[i].ask].now + latency
    {
      LeakTimes(sh, e, run[i].ask);
    }
  }

  lemma AskOf(c: Config, sh: Shape, e: Event, i: nat, ask: nat)
    requires Leaky(c, sh, e) && i <= 4 * sh.q + 2 && LeakAt(sh, e, i).Decides? && ask == LeakAt(sh, e, i).ask
    ensures ask < i && (ask <= 2 * sh.q || (ask == 4 * sh.q + 1 && !sh.hand)) && LeakAt(sh, e, i).e.tenant == e.tenant
  {
  }

  lemma LeakAsked(c: Config, sh: Shape, e: Event, ops: seq<Op>, ask: nat)
    requires Leaky(c, sh, e) && IsLeak(sh, e, ops) && (ask <= 2 * sh.q || (ask == 4 * sh.q + 1 && !sh.hand))
    ensures Clear(c, ops, e.tenant, ask)
  {
    if ask <= 2 * sh.q {
      LeakClears(c, sh, e, ops, ask);
    } else {
      LeakEnds(c, sh, e, ops);
    }
  }

  lemma LeakIsLegal(c: Config, sh: Shape, e: Event)
    requires Leaky(c, sh, e)
    ensures Legal(c, Leak(sh, e))
  {
    var run := Leak(sh, e);
    forall i | 0 <= i < |run| && run[i].Decides?
      ensures run[i].ask < i && Clear(c, Ops(run), run[i].e.tenant, run[i].ask)
    {
      AskOf(c, sh, e, i, run[i].ask);
      LeakAsked(c, sh, e, Ops(run), run[i].ask);
    }
  }

  lemma LeakCounts(c: Config, sh: Shape, e: Event, ops: seq<Op>, i: nat)
    requires Leaky(c, sh, e) && IsLeak(sh, e, ops) && 3 * sh.q < i <= 4 * sh.q
    ensures Counts(c, ops, e.tenant, 4 * sh.q + 2, i)
  {
    var n := 4 * sh.q + 2;
    forall j: nat | i <= j < n
      ensures !TripAt(c, ops, e.tenant, j)
    {
      LeakTripsAt(c, sh, e, ops, j);
    }
    assert NoTripFrom(c, ops, e.tenant, i, n) && StaysRecent(c, ops, e.tenant, i, n + 1);
  }

  lemma LeakRests(c: Config, sh: Shape, e: Event, ops: seq<Op>, i: nat)
    requires Leaky(c, sh, e) && IsLeak(sh, e, ops) && 3 * sh.q < i <= 4 * sh.q && TripAt(c, ops, e.tenant, 4 * sh.q + 2)
    ensures Rests(c, ops, e.tenant, 4 * sh.q + 2, i)
  {
    LeakGoes(c, sh, e, ops, i);
    LeakCounts(c, sh, e, ops, i);
    RestsIff(c, ops, e.tenant, 4 * sh.q + 2, i);
  }

  /** The cooldown set at n rests on every block between k and the last ask, and each of them was
      decided under a ban. */
  ghost predicate AllRest(c: Config, ops: seq<Op>, t: string, k: nat, n: nat) {
    n < |ops| && TripAt(c, ops, t, n) && forall i | k < i < n - 1 :: Rests(c, ops, t, n, i)
  }

  lemma LeakAllRest(c: Config, sh: Shape, e: Event, ops: seq<Op>, k: nat, n: nat)
    requires Leaky(c, sh, e) && IsLeak(sh, e, ops) && k == 3 * sh.q && n == 4 * sh.q + 2
    ensures AllRest(c, ops, e.tenant, k, n) && (!sh.hand ==> TripAt(c, ops, e.tenant, k))
  {
    LeakTripsAt(c, sh, e, ops, k);
    LeakEnds(c, sh, e, ops);
    forall i | k < i < n - 1
      ensures Rests(c, ops, e.tenant, n, i)
    {
      LeakRests(c, sh, e, ops, i);
    }
  }

  /** In a run like any other, a cooldown set at n rests on a threshold's worth of blocks that were
      decided under the ban set at k: on all but the last one. */
  ghost predicate Leaks(c: Config, run: seq<Section>, t: string, latency: nat, k: nat, n: nat) {
    && Legal(c, run) && ClocksForward(Ops(run)) && Prompt(run, t, latency)
    && k + Enough(c) + 2 == n && AllRest(c, Ops(run), t, k, n)
  }

  /** People leave the client alone, and it is an automatic cooldown that is set at k. */
  ghost predicate LeftAlone(c: Config, run: seq<Section>, t: string, k: nat) {
    NoHands(run, t) && TripAt(c, Ops(run), t, k)
  }

  ghost predicate PromptShape(sh: Shape, latency: nat) {
    sh.hold <= latency && if sh.lastAsk == 2 * sh.q then 0 <= sh.last <= sh.end <= latency else sh.last == sh.end
  }

  lemma LeakRun(c: Config, sh: Shape, e: Event, latency: nat, run: seq<Section>, k: nat, n: nat)
    requires Leaky(c, sh, e) && PromptShape(sh, latency) && run == Leak(sh, e) && k == 3 * sh.q && n == 4 * sh.q + 2
    ensures Leaks(c, run, e.tenant, latency, k, n)
  {
    LeakIsLegal(c, sh, e);
    LeakClocks(c, sh, e);
    LeakPrompt(c, sh, e, latency);
    LeakAllRest(c, sh, e, Ops(run), k, n);
  }

  lemma LeakAlone(c: Config, sh: Shape, e: Event, run: seq<Section>, k: nat, n: nat)
    requires Leaky(c, sh, e) && !sh.hand && run == Leak(sh, e) && k == 3 * sh.q && n == 4 * sh.q + 2
    ensures LeftAlone(c, run, e.tenant, k)
  {
    forall i | 0 <= i < |run|
      ensures !ByPeople(OpOf(LeakAt(sh, e, i)), e.tenant)
    {
    }
    LeakAllRest(c, sh, e, Ops(run), k, n);
  }

  /** The second burst is decided as late as it may be, and the last request is a new one; or, if a
      request may wait for longer than the cooldown, all of it is about the one moment. */
  lemma ShapeFor(c: Config, e: Event, latency: nat) returns (sh: Shape)
    requires Blocked(e) && c.windowMs > 0 && 0 < c.cooldownMs < c.windowMs + latency
    ensures Leaky(c, sh, e) && !sh.hand && PromptShape(sh, latency)
  {
    var q := Enough(c);
    sh := if c.cooldownMs > latency then Shape(q, false, latency, c.cooldownMs, c.cooldownMs, c.cooldownMs, 4 * q + 1)
          else Shape(q, false, 0, c.cooldownMs, 0, c.cooldownMs, 2 * q);
  }

  lemma ShapeByHand(c: Config, e: Event) returns (sh: Shape)
    requires Blocked(e) && c.windowMs > 0
    ensures Leaky(c, sh, e) && PromptShape(sh, 0)
  {
    sh := Shape(Enough(c), true, 0, 1, 0, 0, 2 * Enough(c));
  }

  /** Otherwise it does.  With a cooldown shorter than the window and one latency, a client that sends
      twice the threshold at once is cooled down twice: the second time after one request more, on
      blocks all but one of which were decided under the first. */
  lemma OverlapCoolsDownTwice(c: Config, e: Event, latency: nat) returns (run: seq<Section>, k: nat, n: nat)
    requires Blocked(e) && c.windowMs > 0 && 0 < c.cooldownMs < c.windowMs + latency
    ensures Leaks(c, run, e.tenant, latency, k, n) && LeftAlone(c, run, e.tenant, k)
  {
    var sh := ShapeFor(c, e, latency);
    run, k, n := Leak(sh, e), 3 * sh.q, 4 * sh.q + 2;
    LeakRun(c, sh, e, latency, run, k, n);
    LeakAlone(c, sh, e, run, k, n);
  }

  /** And where people ban and lift it does whatever the settings, with no latency at all: a
      threshold's worth of requests are in flight when the client is banned, and are what it is
      cooled down for once it is not. */
  lemma HandsLeak(c: Config, e: Event) returns (run: seq<Section>, k: nat, n: nat)
    requires Blocked(e) && c.windowMs > 0
    ensures Leaks(c, run, e.tenant, 0, k, n)
  {
    var sh := ShapeByHand(c, e);
    run, k, n := Leak(sh, e), 3 * sh.q, 4 * sh.q + 2;
    LeakRun(c, sh, e, 0, run, k, n);
  }

  /** No cooldown rests on a block decided under a ban. */
  ghost predicate NeverRests(c: Config, latency: nat) {
    forall run, t, n: nat, i: nat |
      && Legal(c, run) && ClocksForward(Ops(run)) && Prompt(run, t, latency) && NoHands(run, t)
      && TripAt(c, Ops(run), t, n) :: !Rests(c, Ops(run), t, n, i)
  }

  /** That is so in every run of clients left alone, however their requests overlap, exactly when the
      cooldown outlasts the window and the longest a request takes from its ask to its report. */
  lemma NeverRestsIff(c: Config, latency: nat)
    requires c.windowMs > 0
    ensures NeverRests(c, latency) <==> c.cooldownMs <= 0 || c.cooldownMs >= c.windowMs + latency
  {
    if c.cooldownMs <= 0 || c.cooldownMs >= c.windowMs + latency {
      forall run, t, n: nat, i: nat |
        && Legal(c, run) && ClocksForward(Ops(run)) && Prompt(run, t, latency) && NoHands(run, t)
        && TripAt(c, Ops(run), t, n)
        ensures !Rests(c, Ops(run), t, n, i)
      {
        LongCooldownForgets(c, run, t, n, i, latency);
      }
    } else {
      var e := Event(0, "", false, "burst", None, None);
      var run, k, n := OverlapCoolsDownTwice(c, e, latency);
      assert Rests(c, Ops(run), e.tenant, n, k + 1);
    }
  }
}
