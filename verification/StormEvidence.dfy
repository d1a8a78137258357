/** Which burst blocks a cooldown rests on, and when one of them came under a ban. */
module StormEvidence {
  import opened Automations
  import opened AutomationsProofs

  // ---- Which blocks -----------------------------------------------------------------

  /** The operations among these whose events are still inside the window. */
  function Kept(ops: seq<Op>, hits: seq<nat>, at: int, w: int): (r: seq<nat>)
    ensures forall i :: i in r <==> i in hits && i < |ops| && ops[i].Decide? && at - ops[i].e.at < w
  {
    if hits == [] then []
    else
      var i := hits[|hits| - 1];
      var before := Kept(ops, hits[..|hits| - 1], at, w);
      assert hits == hits[..|hits| - 1] + [i];
      if i < |ops| && ops[i].Decide? && at - ops[i].e.at < w then before + [i] else before
  }

  /** Where the entries of t's log come from. */
  function LogFrom(c: Config, ops: seq<Op>, t: string): seq<nat> {
    if ops == [] then []
    else
      var n := |ops| - 1;
      if TripsOn(c, Run(c, ops[..n]), ops[n], t) then []
      else if Hit(ops[n], t) then Kept(ops, LogFrom(c, ops[..n], t), ops[n].e.at, c.windowMs) + [n]
      else LogFrom(c, ops[..n], t)
  }

  /** The blocks the storm rule counts when it decides the last operation. */
  function Evidence(c: Config, ops: seq<Op>, t: string): seq<nat>
    requires ops != [] && Hit(ops[|ops| - 1], t)
  {
    var n := |ops| - 1;
    Kept(ops, LogFrom(c, ops[..n], t), ops[n].e.at, c.windowMs) + [n]
  }

  function Times(ops: seq<Op>, hits: seq<nat>): seq<int> {
    if hits == [] then []
    else Times(ops, hits[..|hits| - 1]) + [if hits[|hits| - 1] < |ops| && ops[hits[|hits| - 1]].Decide? then ops[hits[|hits| - 1]].e.at else 0]
  }

  ghost predicate AllHits(ops: seq<Op>, hits: seq<nat>) {
    forall i | i in hits :: i < |ops| && ops[i].Decide?
  }

  lemma {:induction false} RecentKept(ops: seq<Op>, hits: seq<nat>, at: int, w: int)
    requires AllHits(ops, hits)
    ensures Recent(Times(ops, hits), at, w) == Times(ops, Kept(ops, hits, at, w))
  {
    if hits != [] {
      var n := |hits| - 1;
      assert AllHits(ops, hits[..n]) && hits[n] in hits;
      RecentKept(ops, hits[..n], at, w);
      RecentAppend(Times(ops, hits[..n]), ops[hits[n]].e.at, at, w);
      TimesAppend(ops, Kept(ops, hits[..n], at, w), hits[n]);
    }
  }

  lemma TimesAppend(ops: seq<Op>, hits: seq<nat>, i: nat)
    requires i < |ops| && ops[i].Decide?
    ensures Times(ops, hits + [i]) == Times(ops, hits) + [ops[i].e.at]
  {
    assert (hits + [i])[..|hits|] == hits;
  }

  lemma {:induction false} TimesMore(ops: seq<Op>, op: Op, hits: seq<nat>)
    requires AllHits(ops, hits)
    ensures Times(ops + [op], hits) == Times(ops, hits)
  {
    if hits != [] {
      assert AllHits(ops, hits[..|hits| - 1]) && hits[|hits| - 1] in hits;
      TimesMore(ops, op, hits[..|hits| - 1]);
    }
  }

  lemma {:induction false} FromHits(c: Config, ops: seq<Op>, t: string)
    ensures forall i | i in LogFrom(c, ops, t) :: i < |ops| && Hit(ops[i], t)
  {
    if ops != [] {
      FromHits(c, ops[..|ops| - 1], t);
    }
  }

  /** The log is the times of those blocks, and so is what the rule counts. */
  lemma {:induction false} LogIsFrom(c: Config, ops: seq<Op>, t: string)
    ensures Log(Run(c, ops), t) == Times(ops, LogFrom(c, ops, t))
  {
    if ops != [] {
      var n := |ops| - 1;
      LogIsFrom(c, ops[..n], t);
      LogAfter(c, Run(c, ops[..n]), ops[n], t);
      if Hit(ops[n], t) {
        EvidenceIsCounted(c, ops, t);
      } else {
        FromHits(c, ops[..n], t);
        assert ops == ops[..n] + [ops[n]];
        TimesMore(ops[..n], ops[n], LogFrom(c, ops[..n], t));
      }
    }
  }

  lemma EvidenceIsCounted(c: Config, ops: seq<Op>, t: string)
    requires ops != [] && Hit(ops[|ops| - 1], t)
    requires Log(Run(c, ops[..|ops| - 1]), t) == Times(ops[..|ops| - 1], LogFrom(c, ops[..|ops| - 1], t))
    ensures Fresh(c, Run(c, ops[..|ops| - 1]), ops[|ops| - 1].e) == Times(ops, Evidence(c, ops, t))
  {
    var n := |ops| - 1;
    var hits := LogFrom(c, ops[..n], t);
    FromHits(c, ops[..n], t);
    assert ops == ops[..n] + [ops[n]];
    TimesMore(ops[..n], ops[n], hits);
    RecentKept(ops, hits, ops[n].e.at, c.windowMs);
    TimesAppend(ops, Kept(ops, hits, ops[n].e.at, c.windowMs), n);
  }

  /** The j-th operation sets off a cooldown for t. */
  predicate TripAt(c: Config, ops: seq<Op>, t: string, j: nat) {
    j < |ops| && TripsOn(c, Run(c, ops[..j]), ops[j], t)
  }

  lemma TripBefore(c: Config, ops: seq<Op>, t: string, m: nat, j: nat)
    requires j < m <= |ops|
    ensures TripAt(c, ops[..m], t, j) <==> TripAt(c, ops, t, j)
  {
    assert ops[..m][..j] == ops[..j];
  }

  ghost predicate NoTripFrom(c: Config, ops: seq<Op>, t: string, i: nat, n: nat) {
    forall j: nat | i <= j < n :: !TripAt(c, ops, t, j)
  }

  ghost predicate StaysRecent(c: Config, ops: seq<Op>, t: string, i: nat, n: nat)
    requires i < |ops| && ops[i].Decide? && n <= |ops|
  {
    forall j | i < j < n && Hit(ops[j], t) :: ops[j].e.at - ops[i].e.at < c.windowMs
  }

  lemma NoTripBefore(c: Config, ops: seq<Op>, t: string, i: nat, m: nat)
    requires m <= |ops|
    ensures NoTripFrom(c, ops[..m], t, i, m) <==> NoTripFrom(c, ops, t, i, m)
  {
    forall j: nat | j < m
      ensures TripAt(c, ops[..m], t, j) <==> TripAt(c, ops, t, j)
    {
      TripBefore(c, ops, t, m, j);
    }
  }

  lemma NoTripNext(c: Config, ops: seq<Op>, t: string, i: nat, n: nat)
    requires i <= n
    ensures NoTripFrom(c, ops, t, i, n + 1) <==> NoTripFrom(c, ops, t, i, n) && !TripAt(c, ops, t, n)
  {
    if NoTripFrom(c, ops, t, i, n + 1) {
      assert forall j: nat | i <= j < n :: !TripAt(c, ops, t, j);
      assert !TripAt(c, ops, t, n);
    }
  }

  lemma RecentNext(c: Config, ops: seq<Op>, t: string, i: nat, n: nat)
    requires i < n < |ops| && ops[i].Decide?
    ensures StaysRecent(c, ops, t, i, n + 1)
            <==> StaysRecent(c, ops[..n], t, i, n) && (Hit(ops[n], t) ==> ops[n].e.at - ops[i].e.at < c.windowMs)
  {
    assert ops[..n][i] == ops[i] && forall j | i < j < n :: ops[..n][j] == ops[j];
  }

  /** A block since the last cooldown that no later one has found outside the window. */
  ghost predicate Standing(c: Config, ops: seq<Op>, t: string, i: nat) {
    i < |ops| && Hit(ops[i], t) && NoTripFrom(c, ops, t, i, |ops|) && StaysRecent(c, ops, t, i, |ops|)
  }

  lemma StandingNext(c: Config, ops: seq<Op>, t: string, i: nat)
    requires ops != []
    ensures
      var n := |ops| - 1;
      Standing(c, ops, t, i)
      <==> !TripAt(c, ops, t, n)
           && (if i >= n then i == n && Hit(ops[n], t)
               else Standing(c, ops[..n], t, i) && (Hit(ops[n], t) ==> ops[n].e.at - ops[i].e.at < c.windowMs))
  {
    var n := |ops| - 1;
    if i <= n {
      NoTripNext(c, ops, t, i, n);
    }
    if i < n && Hit(ops[i], t) {
      NoTripBefore(c, ops, t, i, n);
      RecentNext(c, ops, t, i, n);
    }
  }

  lemma {:induction false} LogFromIff(c: Config, ops: seq<Op>, t: string, i: nat)
    ensures i in LogFrom(c, ops, t) <==> Standing(c, ops, t, i)
  {
    if ops != [] {
      LogFromIff(c, ops[..|ops| - 1], t, i);
      StandingNext(c, ops, t, i);
      FromHits(c, ops[..|ops| - 1], t);
    }
  }

  lemma InEvidence(c: Config, ops: seq<Op>, t: string, i: nat)
    requires ops != [] && Hit(ops[|ops| - 1], t)
    ensures
      var n := |ops| - 1;
      i in Evidence(c, ops, t) <==> i == n || (i < n && Standing(c, ops[..n], t, i) && ops[n].e.at - ops[i].e.at < c.windowMs)
  {
    LogFromIff(c, ops[..|ops| - 1], t, i);
  }

  /** What counts, exactly, in any run: the blocks since the last cooldown that no later block, this
      one included, found outside the window. */
  lemma EvidenceIff(c: Config, ops: seq<Op>, t: string, i: nat)
    requires ops != [] && Hit(ops[|ops| - 1], t)
    ensures i in Evidence(c, ops, t)
            <==> i < |ops| && Hit(ops[i], t) && NoTripFrom(c, ops, t, i, |ops| - 1) && StaysRecent(c, ops, t, i, |ops|)
    ensures Fresh(c, Run(c, ops[..|ops| - 1]), ops[|ops| - 1].e) == Times(ops, Evidence(c, ops, t))
  {
    var n := |ops| - 1;
    InEvidence(c, ops, t, i);
    if i < n && Hit(ops[i], t) {
      NoTripBefore(c, ops, t, i, n);
      RecentNext(c, ops, t, i, n);
    }
    EvidenceTimes(c, ops, t);
  }

  lemma EvidenceTimes(c: Config, ops: seq<Op>, t: string)
    requires ops != [] && Hit(ops[|ops| - 1], t)
    ensures Fresh(c, Run(c, ops[..|ops| - 1]), ops[|ops| - 1].e) == Times(ops, Evidence(c, ops, t))
  {
    LogIsFrom(c, ops[..|ops| - 1], t);
    EvidenceIsCounted(c, ops, t);
  }

  /** The block at i was decided while a ban on t was live. */
  predicate UnderBan(c: Config, ops: seq<Op>, t: string, i: nat) {
    i < |ops| && Banned(Run(c, ops[..i]), t, ops[i].now)
  }

  lemma WindowSuffices(c: Config, ops: seq<Op>, t: string, i: nat)
    requires InOrder(ops) && i < |ops| - 1 && ops[i].Decide? && Hit(ops[|ops| - 1], t)
    ensures StaysRecent(c, ops, t, i, |ops|) <==> ops[|ops| - 1].e.at - ops[i].e.at < c.windowMs
  {
  }

  /** With events in time order, being inside the last one's window is enough. */
  lemma InOrderEvidence(c: Config, ops: seq<Op>, t: string, i: nat)
    requires InOrder(ops) && ops != [] && Hit(ops[|ops| - 1], t) && i < |ops| - 1
    ensures i in Evidence(c, ops, t)
            <==> Hit(ops[i], t) && NoTripFrom(c, ops, t, i, |ops| - 1) && ops[|ops| - 1].e.at - ops[i].e.at < c.windowMs
  {
    EvidenceIff(c, ops, t, i);
    if Hit(ops[i], t) {
      WindowSuffices(c, ops, t, i);
    }
  }

  /** A block decided under a ban on t, in the last one's window and since the last cooldown. */
  ghost predicate BannedBlock(c: Config, ops: seq<Op>, t: string, i: nat) {
    && i < |ops| - 1 && Hit(ops[i], t) && ops[|ops| - 1].Decide? && UnderBan(c, ops, t, i)
    && NoTripFrom(c, ops, t, i, |ops| - 1) && ops[|ops| - 1].e.at - ops[i].e.at < c.windowMs
  }

  /** What arrives under a ban counts once it is over.  A cooldown rests on such a block exactly when
      one came inside its window and since the last cooldown. */
  lemma BannedEvidenceIff(c: Config, ops: seq<Op>, t: string)
    requires InOrder(ops) && ops != [] && TripAt(c, ops, t, |ops| - 1)
    ensures (exists i :: i in Evidence(c, ops, t) && UnderBan(c, ops, t, i)) <==> exists i: nat :: BannedBlock(c, ops, t, i)
  {
    forall i: nat
      ensures i in Evidence(c, ops, t) && UnderBan(c, ops, t, i) <==> BannedBlock(c, ops, t, i)
    {
      BannedInEvidence(c, ops, t, i);
    }
  }

  lemma BannedInEvidence(c: Config, ops: seq<Op>, t: string, i: nat)
    requires InOrder(ops) && ops != [] && TripAt(c, ops, t, |ops| - 1)
    ensures i in Evidence(c, ops, t) && UnderBan(c, ops, t, i) <==> BannedBlock(c, ops, t, i)
  {
    if i < |ops| - 1 {
      InOrderEvidence(c, ops, t, i);
    } else {
      EvidenceIff(c, ops, t, i);
    }
  }

  // ---- A cooldown that rests on another ---------------------------------------------

  /** A ban by hand, and k blocks under it. */
  function BannedStorm(e: Event, k: nat): (ops: seq<Op>)
    ensures |ops| == k + 1
  {
    if k == 0 then [BanTenant(e.tenant, 1, e.at)] else BannedStorm(e, k - 1) + [Decide(e, e.at)]
  }

  lemma {:induction false} StormShape(e: Event, k: nat, i: nat)
    requires i <= k
    ensures BannedStorm(e, k)[i] == if i == 0 then BanTenant(e.tenant, 1, e.at) else Decide(e, e.at)
  {
    if i < k {
      StormShape(e, k - 1, i);
    }
  }

  /** Under a live ban, with k blocks on file, all at the same instant. */
  ghost predicate Stormed(p: Pilot, e: Event, k: nat) {
    Banned(p, e.tenant, e.at) && |Log(p, e.tenant)| == k && forall a | a in Log(p, e.tenant) :: a == e.at
  }

  lemma BlockAdds(c: Config, p: Pilot, e: Event, k: nat)
    requires Blocked(e) && c.windowMs > 0 && Stormed(p, e, k)
    ensures Stormed(Step(c, p, Decide(e, e.at)), e, k + 1)
  {
    StormAlone(c, p, e, e.at);
    AllRecent(Log(p, e.tenant), e.at, c.windowMs);
  }

  lemma BanStarts(c: Config, e: Event)
    ensures Stormed(Step(c, IDLE, BanTenant(e.tenant, 1, e.at)), e, 0)
  {
  }

  lemma RunNext(c: Config, before: seq<Op>, op: Op)
    ensures Run(c, before + [op]) == Step(c, Run(c, before), op)
  {
    assert (before + [op])[..|before|] == before;
  }

  lemma {:induction false} BannedStormLogs(c: Config, e: Event, k: nat)
    requires Blocked(e) && c.windowMs > 0
    ensures Stormed(Run(c, BannedStorm(e, k)), e, k)
  {
    if k == 0 {
      BanStarts(c, e);
      RunNext(c, [], BanTenant(e.tenant, 1, e.at));
      assert [] + BannedStorm(e, 0) == BannedStorm(e, 0);
    } else {
      BannedStormLogs(c, e, k - 1);
      RunNext(c, BannedStorm(e, k - 1), Decide(e, e.at));
      BlockAdds(c, Run(c, BannedStorm(e, k - 1)), e, k - 1);
    }
  }

  lemma {:induction false} AllRecent(log: seq<int>, at: int, w: int)
    requires w > 0 && forall a | a in log :: a == at
    ensures Recent(log, at, w) == log
  {
    if log != [] {
      var n := |log| - 1;
      assert forall a | a in log[..n] :: a in log;
      AllRecent(log[..n], at, w);
      assert log[n] in log && log == log[..n] + [log[n]];
    }
  }

  lemma {:induction false} StormPrefix(e: Event, k: nat, m: nat)
    requires m <= k
    ensures BannedStorm(e, k)[..m + 1] == BannedStorm(e, m)
  {
    if m < k {
      StormPrefix(e, k - 1, m);
      assert BannedStorm(e, k)[..m + 1] == BannedStorm(e, k - 1)[..m + 1];
    }
  }

  /** For every threshold of two or more a client can be cooled down on blocks all but the last of
      which it collected under a ban, if whoever set the ban lifts it in time. */
  lemma BannedBlocksCount(c: Config, e: Event) returns (ops: seq<Op>)
    requires c.threshold >= 2 && c.windowMs > 0 && Blocked(e)
    ensures ops != [] && TripAt(c, ops, e.tenant, |ops| - 1) && |Evidence(c, ops, e.tenant)| == c.threshold
    ensures forall i | i in Evidence(c, ops, e.tenant) && i < |ops| - 1 :: UnderBan(c, ops, e.tenant, i)
  {
    var k := c.threshold - 1;
    ops := LiftedStorm(e, k);
    LiftedTrips(c, e, k);
    forall i | i in Evidence(c, ops, e.tenant) && i < |ops| - 1
      ensures UnderBan(c, ops, e.tenant, i)
    {
      EvidenceIff(c, ops, e.tenant, i);
      LiftedShape(e, k, i);
      StormIsBanned(c, e, k, ops, i);
    }
  }

  function LiftedStorm(e: Event, k: nat): (ops: seq<Op>)
    ensures |ops| == k + 3
  {
    BannedStorm(e, k) + [UnbanTenant(e.tenant, e.at)] + [Decide(e, e.at)]
  }

  lemma LiftedShape(e: Event, k: nat, i: nat)
    requires i < k + 2
    ensures BannedStorm(e, k) <= LiftedStorm(e, k)
    ensures LiftedStorm(e, k)[i].Decide? ==> 0 < i <= k
  {
    StormShape(e, k, 0);
  }

  lemma StormIsBanned(c: Config, e: Event, k: nat, ops: seq<Op>, i: nat)
    requires Blocked(e) && c.windowMs > 0 && 0 < i <= k && BannedStorm(e, k) <= ops
    ensures UnderBan(c, ops, e.tenant, i)
  {
    StormPrefix(e, k, i - 1);
    StormShape(e, k, i);
    BannedStormLogs(c, e, i - 1);
    PrefixOfPrefix(BannedStorm(e, k), ops, i);
    UnderBanBy(c, ops, e.tenant, i, BannedStorm(e, i - 1));
  }

  lemma PrefixOfPrefix<T>(s: seq<T>, t: seq<T>, i: nat)
    requires s <= t && i < |s|
    ensures t[..i] == s[..i] && t[i] == s[i]
  {
  }

  lemma UnderBanBy(c: Config, ops: seq<Op>, t: string, i: nat, before: seq<Op>)
    requires i < |ops| && ops[..i] == before && Banned(Run(c, before), t, ops[i].now)
    ensures UnderBan(c, ops, t, i)
  {
  }

  lemma LiftedTrips(c: Config, e: Event, k: nat)
    requires c.threshold == k + 1 && c.windowMs > 0 && Blocked(e)
    ensures TripAt(c, LiftedStorm(e, k), e.tenant, k + 2) && |Evidence(c, LiftedStorm(e, k), e.tenant)| == c.threshold
  {
    var t, lifted, ops := e.tenant, BannedStorm(e, k) + [UnbanTenant(e.tenant, e.at)], LiftedStorm(e, k);
    BannedStormLogs(c, e, k);
    RunNext(c, BannedStorm(e, k), UnbanTenant(t, e.at));
    OneMoreTrips(c, Run(c, BannedStorm(e, k)), e, k);
    assert ops[..k + 2] == lifted;
    LogIsFrom(c, lifted, t);
    EvidenceIsCounted(c, ops, t);
    TimesLength(ops, Evidence(c, ops, t));
  }

  lemma OneMoreTrips(c: Config, p: Pilot, e: Event, k: nat)
    requires c.threshold == k + 1 && c.windowMs > 0 && Blocked(e) && Stormed(p, e, k)
    ensures
      var lifted := Step(c, p, UnbanTenant(e.tenant, e.at));
      Trips(c, lifted, e, e.at) && |Fresh(c, lifted, e)| == k + 1
  {
    AllRecent(Log(p, e.tenant), e.at, c.windowMs);
  }

  lemma {:induction false} TimesLength(ops: seq<Op>, hits: seq<nat>)
    ensures |Times(ops, hits)| == |hits|
  {
    if hits != [] {
      TimesLength(ops, hits[..|hits| - 1]);
    }
  }
}
