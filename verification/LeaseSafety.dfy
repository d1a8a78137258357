/** What every step of the election keeps, and what follows over whole runs. */
module LeaseSafety {
  import opened Wrappers
  import opened Lease

  // ---- The invariant ----------------------------------------------------------------

  /** Why a write with this content may exist, given the history it was based on. */
  ghost predicate Justified(c: Config, log: seq<Landed>, w: Write) {
    && w.basis <= |log|
    && match w.kind
       case Create => w.basis == 0 && w.rec == Record(Held(w.from), 0)
       case Renew => 0 < w.basis && At(log, w.basis).holder == Held(w.from) && w.rec == At(log, w.basis)
       case Release =>
         0 < w.basis && At(log, w.basis).holder == Held(w.from) && w.rec == At(log, w.basis).(holder := Blank)
       case TakeOver =>
         && 0 < w.basis && At(log, w.basis).holder != Held(w.from)
         && w.rec == Record(Held(w.from), At(log, w.basis).transitions + 1)
         && log[w.basis - 1].at <= w.seenAt
         && w.seenAt + c.leaseDuration <= w.startedAt + c.latency
  }

  /** Entry k of the history replaced version k, for a reason, and not in the past. */
  ghost predicate EntryOk(c: Config, log: seq<Landed>, k: nat)
    requires k < |log|
  {
    && log[k].w.basis == k
    && Justified(c, log[..k], log[k].w)
    && log[k].w.startedAt <= log[k].at && log[k].w.seenAt <= log[k].at
    && (0 < k ==> log[k - 1].at <= log[k].at)
  }

  ghost predicate Chain(c: Config, log: seq<Landed>, now: int) {
    && (forall k | 0 <= k < |log| :: EntryOk(c, log, k))
    && (0 < |log| ==> log[|log| - 1].at <= now)
  }

  /** Everything from version rv on was written by replica i, the first of it at `at`. */
  ghost predicate Owns(log: seq<Landed>, i: nat, rv: nat, at: int) {
    && 0 < rv <= |log| && log[rv - 1].at == at
    && forall k | rv - 1 <= k < |log| :: log[k].w.from == i
  }

  ghost predicate MemoryOk(c: Config, s: State, i: nat)
    requires |c.skew| == |s.reps| && i < |s.reps|
  {
    var r := s.reps[i];
    r.memory.observedRV > 0 ==>
      && r.memory.observedRV <= |s.log|
      && s.log[r.memory.observedRV - 1].at <= r.seenAt <= s.now
      && r.seenAt <= r.memory.observedAt - c.skew[i] + c.latency
  }

  /** Where a replica's phase places the present relative to its own deadlines. */
  ghost predicate PhaseOk(c: Config, s: State, i: nat)
    requires i < |s.reps|
  {
    var ph := s.reps[i].phase;
    && MayLinger(c, s.reps[i], s.now)
    && (ph.Waiting? ==> ph.since <= s.now)
    && (!ph.Waiting? ==> ph.start <= s.now)
    && (ph.GotLease? ==>
          && ph.rv <= |s.log| && ph.start <= ph.readAt <= s.now && ph.readAt <= ph.start + c.latency
          && (0 < ph.rv ==> s.log[ph.rv - 1].at <= ph.readAt))
    && (ph.ReleaseGot? ==> ph.rv <= |s.log|)
    && (ph.Answered? ==> ph.start <= ph.at <= s.now)
    && (Releasing(ph) ==> c.shutdown && s.reps[i].isLeader)
  }

  /** A positive answer on its way back is a claim as good as the flag itself. */
  ghost predicate ClaimOk(s: State, i: nat)
    requires i < |s.reps|
  {
    var ph := s.reps[i].phase;
    ph.Answered? && ph.ok ==> Owns(s.log, i, ph.rv, ph.at)
  }

  /** How long ago a leader's last acknowledged write landed, phase by phase. */
  ghost predicate LeaderOk(c: Config, s: State, i: nat)
    requires i < |s.reps|
  {
    var r := s.reps[i];
    r.isLeader ==>
      && Owns(s.log, i, r.ackedRV, r.ackedAt)
      && (r.phase.Waiting? ==> r.phase.since <= r.ackedAt + c.latency)
      && (InAttempt(r.phase) ==> r.phase.start <= r.ackedAt + c.latency + c.retryPeriod)
      && (Releasing(r.phase) ==> r.phase.start <= r.ackedAt + c.latency + c.retryPeriod + RenewBound(c))
  }

  /** What holds of replica i whatever the timing parameters are. */
  ghost predicate Sane(c: Config, s: State, i: nat)
    requires |c.skew| == |s.reps| && i < |s.reps|
  {
    MemoryOk(c, s, i) && PhaseOk(c, s, i)
  }

  /** What holds of its claim to lead when the parameters are safe. */
  ghost predicate Sound(c: Config, s: State, i: nat)
    requires i < |s.reps|
  {
    ClaimOk(s, i) && LeaderOk(c, s, i)
  }

  ghost predicate History(c: Config, s: State) {
    && |s.reps| == c.n == |c.skew|
    && Chain(c, s.log, s.now)
    && (forall p | p in s.puts :: p.from < c.n && Justified(c, s.log, p) && p.startedAt <= s.now && p.seenAt <= s.now)
    && forall i | 0 <= i < c.n :: Sane(c, s, i)
  }

  ghost predicate Inv(c: Config, s: State) {
    && History(c, s)
    && forall i | 0 <= i < c.n :: Sound(c, s, i)
  }

  // ---- Preservation of the history --------------------------------------------------

  lemma TickKeeps(c: Config, s: State, d: nat, s': State)
    requires ValidConfig(c) && History(c, s) && Step(c, s, Tick(d)) == Some(s')
    ensures History(c, s')
    ensures Inv(c, s) ==> Inv(c, s')
  {
    forall i | 0 <= i < c.n
      ensures Sane(c, s', i) && (Inv(c, s) ==> Sound(c, s', i))
    {
      assert Sane(c, s, i) && MayLinger(c, s.reps[i], s.now + d);
      assert Inv(c, s) ==> Sound(c, s, i);
    }
  }

  /** A step of replica i that leaves the log alone needs proving for i only. */
  lemma LocalKeeps(c: Config, s: State, s': State, i: nat)
    requires History(c, s) && i < c.n && |s'.reps| == c.n
    requires s'.now == s.now && s'.log == s.log && s'.reps == s.reps[i := s'.reps[i]]
    requires forall p | p in s'.puts :: p in s.puts || (p.from == i && Justified(c, s.log, p) && p.startedAt <= s.now && p.seenAt <= s.now)
    requires Sane(c, s', i)
    ensures History(c, s')
    ensures Inv(c, s) && Sound(c, s', i) ==> Inv(c, s')
  {
    forall j | 0 <= j < c.n
      ensures Sane(c, s', j) && (Inv(c, s) && Sound(c, s', i) ==> Sound(c, s', j))
    {
      assert Sane(c, s, j);
      assert Inv(c, s) ==> Sound(c, s, j);
    }
  }

  lemma HandleSane(c: Config, s: State, i: nat)
    requires ValidConfig(c) && History(c, s) && i < c.n && Sane(c, s, i)
    requires s.reps[i].phase.GotLease? && s.reps[i].phase.rv <= |s.log|
    ensures Sane(c, HandleGet(c, s, i), i)
  {
  }

  lemma HandleKeeps(c: Config, s: State, i: nat)
    requires ValidConfig(c) && History(c, s) && i < c.n
    requires s.reps[i].phase.GotLease? && s.reps[i].phase.rv <= |s.log|
    ensures History(c, HandleGet(c, s, i))
    ensures Inv(c, s) ==> Inv(c, HandleGet(c, s, i))
  {
    assert Sane(c, s, i);
    HandleSane(c, s, i);
    if Inv(c, s) {
      assert Sound(c, s, i);
    }
    LocalKeeps(c, s, HandleGet(c, s, i), i);
  }

  lemma ReplicaSane(c: Config, s: State, a: Action, s': State)
    requires ValidConfig(c) && History(c, s) && !a.Tick? && !a.Land? && !a.Handle? && a.i < c.n
    requires StepReplica(c, s, a) == Some(s') && Sane(c, s, a.i)
    ensures Sane(c, s', a.i)
  {
  }

  lemma ReplicaSound(c: Config, s: State, a: Action, s': State)
    requires ValidConfig(c) && History(c, s) && !a.Tick? && !a.Land? && !a.Handle? && a.i < c.n
    requires StepReplica(c, s, a) == Some(s') && Sane(c, s, a.i) && Sound(c, s, a.i)
    ensures Sound(c, s', a.i)
  {
  }

  lemma ReplicaKeeps(c: Config, s: State, a: Action, s': State)
    requires ValidConfig(c) && History(c, s) && !a.Tick? && !a.Land? && a.i < c.n
    requires StepReplica(c, s, a) == Some(s')
    ensures History(c, s')
    ensures Inv(c, s) ==> Inv(c, s')
  {
    var i := a.i;
    assert Sane(c, s, i);
    if a.Handle? {
      HandleKeeps(c, s, i);
    } else {
      ReplicaSane(c, s, a, s');
      if Inv(c, s) {
        assert Sound(c, s, i);
        ReplicaSound(c, s, a, s');
      }
      LocalKeeps(c, s, s', i);
    }
  }

  // ---- The server's step ------------------------------------------------------------

  /** The heart of the matter.  While replica i's last write is recent, nobody else's
      write can be accepted: a renewal or a release by another replica was based on a
      record that named it, and a takeover has waited out the lease. */
  lemma NoIntruder(c: Config, s: State, p: Write, i: nat, rv: nat, at: int, span: int)
    requires History(c, s) && p in s.puts && p.basis == |s.log|
    requires Owns(s.log, i, rv, at)
    requires s.now <= at + span && span + c.latency < c.leaseDuration
    ensures p.from == i
  {
    var last := s.log[|s.log| - 1];
    assert last.w.from == i && EntryOk(c, s.log, |s.log| - 1);
    LogTimesAscend(c, s.log, s.now, rv - 1, |s.log| - 1);
  }

  lemma {:induction false} LogTimesAscend(c: Config, log: seq<Landed>, now: int, j: nat, k: nat)
    requires Chain(c, log, now) && j <= k < |log|
    ensures log[j].at <= log[k].at
    decreases k
  {
    if j < k {
      assert EntryOk(c, log, k);
      LogTimesAscend(c, log, now, j, k - 1);
    }
  }

  lemma LandKeepsHistory(c: Config, s: State, p: Write)
    requires ValidConfig(c) && History(c, s) && p in s.puts
    ensures History(c, LandWrite(s, p))
  {
    var s' := LandWrite(s, p);
    forall k | 0 <= k < |s'.log|
      ensures EntryOk(c, s'.log, k)
    {
      if k < |s.log| {
        assert EntryOk(c, s.log, k) && s'.log[..k] == s.log[..k];
      } else {
        assert s'.log[..k] == s.log;
      }
    }
    forall i | 0 <= i < c.n
      ensures Sane(c, s', i)
    {
      assert Sane(c, s, i);
    }
  }

  lemma LandKeepsClaims(c: Config, s: State, p: Write)
    requires ValidConfig(c) && Safe(c) && Inv(c, s) && p in s.puts
    ensures Inv(c, LandWrite(s, p))
  {
    var s' := LandWrite(s, p);
    LandKeepsHistory(c, s, p);
    forall i | 0 <= i < c.n
      ensures Sound(c, s', i)
    {
      assert Sane(c, s, i) && Sound(c, s, i);
      var r := s.reps[i];
      if p.basis == |s.log| && r.phase.Answered? && r.phase.ok {
        NoIntruder(c, s, p, i, r.phase.rv, r.phase.at, c.latency);
      }
      if p.basis == |s.log| && r.isLeader {
        NoIntruder(c, s, p, i, r.ackedRV, r.ackedAt, LeadBound(c));
      }
    }
  }

  lemma StepKeepsHistory(c: Config, s: State, a: Action, s': State)
    requires ValidConfig(c) && History(c, s) && Step(c, s, a) == Some(s')
    ensures History(c, s')
  {
    match a
    case Tick(d) => TickKeeps(c, s, d, s');
    case Land(p) => LandKeepsHistory(c, s, p);
    case _ => ReplicaKeeps(c, s, a, s');
  }

  lemma StepKeepsInv(c: Config, s: State, a: Action, s': State)
    requires ValidConfig(c) && Safe(c) && Inv(c, s) && Step(c, s, a) == Some(s')
    ensures Inv(c, s')
  {
    match a
    case Tick(d) => TickKeeps(c, s, d, s');
    case Land(p) => LandKeepsClaims(c, s, p);
    case _ => ReplicaKeeps(c, s, a, s');
  }

  // ---- Whole runs -------------------------------------------------------------------

  lemma {:induction false} RunsKeepHistory(c: Config, acts: seq<Action>)
    requires ValidConfig(c) && Run(c, acts).Some?
    ensures History(c, Run(c, acts).value)
    ensures Safe(c) ==> Inv(c, Run(c, acts).value)
  {
    if |acts| == 0 {
      assert forall i | 0 <= i < c.n :: Sane(c, Init(c), i) && Sound(c, Init(c), i);
    } else {
      var before := acts[..|acts| - 1];
      RunsKeepHistory(c, before);
      StepKeepsHistory(c, Run(c, before).value, acts[|acts| - 1], Run(c, acts).value);
      if Safe(c) {
        StepKeepsInv(c, Run(c, before).value, acts[|acts| - 1], Run(c, acts).value);
      }
    }
  }

  lemma ReachableHistory(c: Config, s: State)
    requires ValidConfig(c) && Reachable(c, s)
    ensures History(c, s)
    ensures Safe(c) ==> Inv(c, s)
  {
    var acts :| Run(c, acts) == Some(s);
    RunsKeepHistory(c, acts);
  }

  /** Mutual exclusion: with safe parameters no schedule of the replicas, the network and
      the crashes ever shows two leaders, and a leader's write is always the newest. */
  lemma MutualExclusion(c: Config, s: State)
    requires ValidConfig(c) && Safe(c) && Reachable(c, s)
    ensures AtMostOneLeader(s)
    ensures forall i | 0 <= i < |s.reps| && s.reps[i].isLeader :: |s.log| > 0 && s.log[|s.log| - 1].w.from == i
  {
    ReachableHistory(c, s);
    forall i | 0 <= i < |s.reps| && s.reps[i].isLeader
      ensures |s.log| > 0 && s.log[|s.log| - 1].w.from == i
    {
      assert Sound(c, s, i);
    }
  }

  /** Each resourceVersion is replaced by at most one write, the next one in the log. */
  lemma VersionsReplacedOnce(c: Config, s: State, j: nat, k: nat)
    requires ValidConfig(c) && Reachable(c, s)
    requires j < |s.log| && k < |s.log| && s.log[j].w.basis == s.log[k].w.basis
    ensures j == k && s.log[j].w.basis == j
  {
    ReachableHistory(c, s);
    assert EntryOk(c, s.log, j) && EntryOk(c, s.log, k);
  }

  /** A takeover that succeeded replaced a record naming somebody else (or nobody), and
      that record had stood unwritten from the instant the server first showed it to the
      challenger until the takeover landed: at least the lease less one attempt. */
  lemma TakeoverWaited(c: Config, s: State, k: nat)
    requires ValidConfig(c) && Reachable(c, s)
    requires k < |s.log| && s.log[k].w.kind == TakeOver
    ensures 0 < k && s.log[k - 1].w.rec.holder != Held(s.log[k].w.from)
    ensures s.log[k].w.rec.holder == Held(s.log[k].w.from)
    ensures s.log[k - 1].at <= s.log[k].w.seenAt <= s.log[k].at
    ensures s.log[k].at - s.log[k].w.seenAt >= c.leaseDuration - c.latency
  {
    ReachableHistory(c, s);
    assert EntryOk(c, s.log, k);
  }

  /** A release blanks nobody but its own author, and keeps the transition count. */
  lemma ReleaseIsOwn(c: Config, s: State, k: nat)
    requires ValidConfig(c) && Reachable(c, s)
    requires k < |s.log| && s.log[k].w.kind == Release
    ensures 0 < k && s.log[k - 1].w.rec.holder == Held(s.log[k].w.from)
    ensures s.log[k].w.rec == Record(Blank, s.log[k - 1].w.rec.transitions)
  {
    ReachableHistory(c, s);
    assert EntryOk(c, s.log, k);
  }

  function TakeOvers(log: seq<Landed>): nat {
    if |log| == 0 then 0
    else TakeOvers(log[..|log| - 1]) + if log[|log| - 1].w.kind == TakeOver then 1 else 0
  }

  /** leaseTransitions counts exactly the takeovers that succeeded. */
  lemma TransitionsCountTakeovers(c: Config, s: State)
    requires ValidConfig(c) && Reachable(c, s) && 0 < |s.log|
    ensures At(s.log, |s.log|).transitions == TakeOvers(s.log)
  {
    ReachableHistory(c, s);
    ChainCounts(c, s.log, |s.log|);
    assert s.log[..|s.log|] == s.log;
  }

  lemma {:induction false} ChainCounts(c: Config, log: seq<Landed>, n: nat)
    requires 0 < n <= |log| && forall k | 0 <= k < |log| :: EntryOk(c, log, k)
    ensures At(log, n).transitions == TakeOvers(log[..n])
  {
    assert EntryOk(c, log, n - 1) && log[..n][..n - 1] == log[..n - 1];
    if 1 < n {
      ChainCounts(c, log, n - 1);
    }
  }
}
