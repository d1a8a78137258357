module LeaseRenewal {
  // That the election works: a leader keeps its lease, a free lease finds a leader, and a lease whose
  // holder is gone changes hands.

  import opened Wrappers
  import opened Lease
  import opened LeaseSafety
  import opened LeaseSplitBrain

  // ---- What a replica makes of what it is shown -------------------------------------

  /** One reading of the lease, under the replica's clock. */
  datatype Sight = Sight(now: int, rv: nat, cur: Record)

  ghost predicate Sights(all: seq<Sight>) {
    forall s | s in all :: 0 < s.rv
  }

  function Recalled(id: nat, leaseDuration: int, all: seq<Sight>): Memory
    requires Sights(all)
  {
    if all == [] then Memory(0, 0, 0)
    else
      var last := all[|all| - 1];
      Judge(Recalled(id, leaseDuration, all[..|all| - 1]), id, leaseDuration, last.now, last.rv, last.cur).0
  }

  /** What it does about the last of them. */
  function Verdicts(id: nat, leaseDuration: int, all: seq<Sight>): Verdict
    requires Sights(all) && all != []
  {
    var last := all[|all| - 1];
    Judge(Recalled(id, leaseDuration, all[..|all| - 1]), id, leaseDuration, last.now, last.rv, last.cur).1
  }

  /** When it first saw the version it sees now, having seen no other since. */
  function FirstSeen(all: seq<Sight>): int
    requires all != []
  {
    var n := |all| - 1;
    if n > 0 && all[n - 1].rv == all[n].rv then FirstSeen(all[..n]) else all[n].now
  }

  lemma {:induction false} Recalls(id: nat, leaseDuration: int, all: seq<Sight>)
    requires Sights(all) && all != []
    ensures
      var m := Recalled(id, leaseDuration, all);
      m.observedRV == all[|all| - 1].rv && m.observedAt == FirstSeen(all) && m.transitions == all[|all| - 1].cur.transitions
  {
    var n := |all| - 1;
    if n > 0 {
      Recalls(id, leaseDuration, all[..n]);
      assert all[..n][n - 1] == all[n - 1];
    }
  }

  /** After any readings at all: a lease one holds is renewed, unchanged; another's is left alone for
      exactly as long as the version has been in sight for less than the lease, and taken over then. */
  lemma VerdictIs(id: nat, leaseDuration: int, all: seq<Sight>)
    requires Sights(all) && all != []
    ensures
      var last, v := all[|all| - 1], Verdicts(id, leaseDuration, all);
      if last.cur.holder == Held(id) then v == Propose(Renew, last.cur)
      else if last.now - FirstSeen(all) < leaseDuration then v == Wait
      else v == Propose(TakeOver, Record(Held(id), last.cur.transitions + 1))
  {
    var n := |all| - 1;
    if n > 0 {
      Recalls(id, leaseDuration, all[..n]);
      assert all[..n][n - 1] == all[n - 1];
    }
  }

  // ---- An attempt that nothing comes between ----------------------------------------

  /** The record the server holds. */
  function Latest(s: State): Record
    requires s.log != []
  {
    At(s.log, |s.log|)
  }

  /** The five steps of one attempt, the write being this one. */
  function Attempt(i: nat, p: Write): (acts: seq<Action>)
    ensures |acts| == 5
  {
    [Start(i), ServeGet(i), Handle(i), Land(p), Finish(i)]
  }

  /** These steps are enabled one after the other and lead there; a replica that leads goes on doing so
      in every state on the way. */
  ghost predicate Takes(c: Config, s: State, acts: seq<Action>, s': State, i: nat, leading: bool)
    requires ValidConfig(c)
    decreases |acts|
  {
    && |s.reps| == c.n && i < c.n && (leading ==> s.reps[i].isLeader)
    && if acts == [] then s == s'
       else Step(c, s, acts[0]).Some? && Takes(c, Step(c, s, acts[0]).value, acts[1..], s', i, leading)
  }

  lemma FirstTaken(c: Config, s: State, a: Action, s1: State, acts: seq<Action>, s': State, i: nat, leading: bool)
    requires ValidConfig(c) && |s.reps| == c.n && i < c.n && (leading ==> s.reps[i].isLeader)
    requires Step(c, s, a) == Some(s1) && Takes(c, s1, acts, s', i, leading)
    ensures Takes(c, s, [a] + acts, s', i, leading)
  {
    assert ([a] + acts)[0] == a && ([a] + acts)[1..] == acts;
  }

  /** What replica i is left with by an attempt that put this write at the head of the log. */
  ghost predicate Won(s: State, i: nat, p: Write, s': State) {
    && i < |s.reps| == |s'.reps|
    && s'.log == s.log + [Landed(p, s.now)] && s'.now == s.now && s'.puts == s.puts + {p} - {p}
    && s'.reps == s.reps[i := s'.reps[i]] && s'.reps[i].isLeader && s'.reps[i].phase == Waiting(s.now)
  }

  /** A write that replaces what is there is taken, and its author, waiting for the answer, leads. */
  lemma WriteWins(c: Config, s: State, i: nat, p: Write, leading: bool) returns (s': State)
    requires ValidConfig(c) && |s.reps| == c.n && i < c.n && (leading ==> s.reps[i].isLeader)
    requires s.reps[i].phase == Putting(s.now) && p in s.puts && p.from == i && p.attempt == s.reps[i].attempt && p.basis == |s.log|
    ensures Takes(c, s, [Land(p), Finish(i)], s', i, leading)
    ensures s'.log == s.log + [Landed(p, s.now)] && s'.now == s.now && s'.puts == s.puts - {p} && |s'.reps| == |s.reps|
    ensures s'.reps == s.reps[i := s'.reps[i]] && s'.reps[i].isLeader && s'.reps[i].phase == Waiting(s.now)
  {
    var s1 := LandWrite(s, p);
    s' := Step(c, s1, Finish(i)).value;
    assert Takes(c, s', [], s', i, leading);
    FirstTaken(c, s1, Finish(i), s', [], s', i, leading);
    FirstTaken(c, s, Land(p), s1, [Finish(i)] + [], s', i, leading);
    assert [Land(p)] + ([Finish(i)] + []) == [Land(p), Finish(i)];
  }

  /** The state in which a waiting replica has been shown the lease. */
  function Shown(s: State, i: nat): State
    requires i < |s.reps|
  {
    Set(s, i, s.reps[i].(phase := GotLease(s.now, |s.log|, s.now), attempt := s.reps[i].attempt + 1))
  }

  lemma Begins(c: Config, s: State, i: nat, acts: seq<Action>, s': State, leading: bool)
    requires ValidConfig(c) && |s.reps| == c.n && i < c.n && s.reps[i].phase.Waiting? && (leading ==> s.reps[i].isLeader)
    requires Takes(c, Shown(s, i), acts, s', i, leading)
    ensures Takes(c, s, [Start(i), ServeGet(i)] + acts, s', i, leading)
  {
    var s1 := Step(c, s, Start(i)).value;
    assert Step(c, s1, ServeGet(i)) == Some(Shown(s, i)) by {
      assert s1.reps[i := Shown(s, i).reps[i]] == Shown(s, i).reps;
    }
    FirstTaken(c, s1, ServeGet(i), Shown(s, i), acts, s', i, leading);
    FirstTaken(c, s, Start(i), s1, [ServeGet(i)] + acts, s', i, leading);
    assert [Start(i)] + ([ServeGet(i)] + acts) == [Start(i), ServeGet(i)] + acts;
  }

  /** A replica that writes what it is shown wins, if nothing comes between. */
  lemma AttemptWins(c: Config, s: State, i: nat, s3: State, p: Write, leading: bool) returns (s': State)
    requires ValidConfig(c) && |s.reps| == c.n && i < c.n && s.reps[i].phase.Waiting? && (leading ==> s.reps[i].isLeader)
    requires s3 == HandleGet(c, Shown(s, i), i) && s3.reps[i].phase == Putting(s.now) && s3.puts == s.puts + {p}
    requires s3.log == s.log && s3.now == s.now && s3.reps == s.reps[i := s3.reps[i]] && (leading ==> s3.reps[i].isLeader)
    requires p.from == i && p.attempt == s3.reps[i].attempt && p.basis == |s.log|
    ensures Takes(c, s, Attempt(i, p), s', i, leading) && Won(s, i, p, s')
  {
    s' := WriteWins(c, s3, i, p, leading);
    FirstTaken(c, Shown(s, i), Handle(i), s3, [Land(p), Finish(i)], s', i, leading);
    Begins(c, s, i, [Handle(i)] + [Land(p), Finish(i)], s', leading);
    assert [Start(i), ServeGet(i)] + ([Handle(i)] + [Land(p), Finish(i)]) == Attempt(i, p);
  }

  /** A leader keeps its lease.  From every state, reachable or not, in which replica i leads, waits for
      its next turn and holds the latest record, an attempt that nothing comes between is enabled step
      by step, leaves the flag up throughout, and adds one write: the record as it was. */
  lemma LeaderRenews(c: Config, s: State, i: nat) returns (p: Write, s': State)
    requires ValidConfig(c) && |s.reps| == c.n && i < c.n
    requires s.reps[i].isLeader && s.reps[i].phase.Waiting? && s.log != [] && Latest(s).holder == Held(i)
    ensures Takes(c, s, Attempt(i, p), s', i, true) && Won(s, i, p, s')
    ensures p.from == i && p.kind == Renew && p.basis == |s.log| && p.rec == Latest(s)
  {
    var s3 := HandleGet(c, Shown(s, i), i);
    p :| p in s3.puts && s3.puts == s.puts + {p} && p.from == i && p.kind == Renew && p.basis == |s.log| && p.rec == Latest(s)
         && p.attempt == s3.reps[i].attempt;
    s' := AttemptWins(c, s, i, s3, p, true);
  }

  /** Replica i leads and has just been answered; nobody else is about anything. */
  ghost predicate Steady(c: Config, s: State, i: nat) {
    && |s.reps| == c.n && i < c.n && s.reps[i].isLeader && s.reps[i].phase == Waiting(s.now)
    && s.log != [] && Latest(s).holder == Held(i)
    && forall j | 0 <= j < c.n && j != i :: s.reps[j].phase.Waiting? && !s.reps[j].isLeader
  }

  lemma {:induction false} ThenTakes(c: Config, s: State, a: seq<Action>, s1: State, b: seq<Action>, s': State, i: nat,
                                     leading: bool)
    requires ValidConfig(c) && Takes(c, s, a, s1, i, leading) && Takes(c, s1, b, s', i, leading)
    ensures Takes(c, s, a + b, s', i, leading)
    decreases |a|
  {
    if a == [] {
      assert a + b == b;
    } else {
      ThenTakes(c, Step(c, s, a[0]).value, a[1..], s1, b, s', i, leading);
      FirstTaken(c, s, a[0], Step(c, s, a[0]).value, a[1..] + b, s', i, leading);
      assert [a[0]] + (a[1..] + b) == a + b;
    }
  }

  function Periods(n: nat, d: int): int {
    if n == 0 then 0 else Periods(n - 1, d) + d
  }

  lemma OnePeriod(c: Config, s: State, i: nat) returns (acts: seq<Action>, s': State)
    requires ValidConfig(c) && Steady(c, s, i)
    ensures Takes(c, s, acts, s', i, true) && Steady(c, s', i) && s'.now == s.now + c.retryPeriod
    ensures |s'.log| == |s.log| + 1 && Latest(s') == Latest(s)
  {
    var s1 := s.(now := s.now + c.retryPeriod);
    assert Step(c, s, Tick(c.retryPeriod)) == Some(s1);
    var p;
    p, s' := LeaderRenews(c, s1, i);
    acts := [Tick(c.retryPeriod)] + Attempt(i, p);
    FirstTaken(c, s, Tick(c.retryPeriod), s1, Attempt(i, p), s', i, true);
  }

  /** So nothing in the protocol ends a term of office: a leader left alone renews at every tick, as often
      as one likes, and leads all the while on the record it has. */
  lemma {:induction false} LeadsOn(c: Config, s: State, i: nat, n: nat) returns (acts: seq<Action>, s': State)
    requires ValidConfig(c) && Steady(c, s, i)
    ensures Takes(c, s, acts, s', i, true) && Steady(c, s', i) && s'.now == s.now + Periods(n, c.retryPeriod)
    ensures |s'.log| == |s.log| + n && Latest(s') == Latest(s)
    decreases n
  {
    if n == 0 {
      acts, s' := [], s;
    } else {
      var before, s1 := LeadsOn(c, s, i, n - 1);
      var more;
      more, s' := OnePeriod(c, s1, i);
      acts := before + more;
      ThenTakes(c, s, before, s1, more, s', i, true);
    }
  }

  /** A lease that has outlived its holder changes hands: a replica that has had this version in sight for
      the length of the lease takes it over, with one more transition. */
  lemma SuccessorTakesOver(c: Config, s: State, i: nat) returns (p: Write, s': State)
    requires ValidConfig(c) && |s.reps| == c.n && i < c.n && s.reps[i].phase.Waiting? && s.log != []
    requires Latest(s).holder != Held(i) && s.reps[i].memory.observedRV == |s.log|
    requires s.now + c.skew[i] - s.reps[i].memory.observedAt >= c.leaseDuration
    ensures Takes(c, s, Attempt(i, p), s', i, false) && Won(s, i, p, s')
    ensures p.from == i && p.kind == TakeOver && p.basis == |s.log| && p.rec == Record(Held(i), Latest(s).transitions + 1)
  {
    var s3 := HandleGet(c, Shown(s, i), i);
    p :| p in s3.puts && s3.puts == s.puts + {p} && p.from == i && p.kind == TakeOver && p.basis == |s.log|
         && p.rec == Record(Held(i), Latest(s).transitions + 1) && p.attempt == s3.reps[i].attempt;
    s' := AttemptWins(c, s, i, s3, p, false);
  }

  /** Shown another's lease any sooner, it writes nothing, and does not lead. */
  lemma ChallengerWaits(c: Config, s: State, i: nat)
    requires ValidConfig(c) && |s.reps| == c.n && i < c.n && s.reps[i].phase.Waiting? && s.log != []
    requires Latest(s).holder != Held(i)
    requires s.reps[i].memory.observedRV == |s.log| ==> s.now + c.skew[i] - s.reps[i].memory.observedAt < c.leaseDuration
    ensures
      var s' := Step(c, Shown(s, i), Handle(i));
      && s'.Some? && s'.value.log == s.log && s'.value.puts == s.puts
      && !s'.value.reps[i].isLeader && s'.value.reps[i].phase == Waiting(s.now)
      && s'.value.reps[i].memory.observedRV == |s.log|
      && s'.value.reps[i].memory.observedAt
         == if s.reps[i].memory.observedRV == |s.log| then s.reps[i].memory.observedAt else s.now + c.skew[i]
  {
  }

  /** Where there is no lease yet, whoever asks creates it and leads. */
  lemma FirstCreates(c: Config, s: State, i: nat) returns (p: Write, s': State)
    requires ValidConfig(c) && |s.reps| == c.n && i < c.n && s.reps[i].phase.Waiting? && s.log == []
    ensures Takes(c, s, Attempt(i, p), s', i, false) && Won(s, i, p, s')
    ensures p.from == i && p.kind == Create && p.basis == 0 && p.rec == Record(Held(i), 0)
  {
    var s3 := HandleGet(c, Shown(s, i), i);
    p :| p in s3.puts && s3.puts == s.puts + {p} && p.from == i && p.kind == Create && p.basis == 0
         && p.rec == Record(Held(i), 0) && p.attempt == s3.reps[i].attempt;
    s' := AttemptWins(c, s, i, s3, p, false);
  }

  // ---- Standing down ----------------------------------------------------------------

  /** The five steps of a leader that is shut down. */
  function StandDown(i: nat, p: Write): seq<Action> {
    [Cancel(i), ServeGet(i), HandleRelease(i), Land(p), EndRelease(i)]
  }

  /** A leader that is shut down while it holds the lease blanks the holder, and nothing else of the
      record, and leads no more. */
  lemma LeaderReleases(c: Config, s: State, i: nat) returns (p: Write, s': State)
    requires ValidConfig(c) && c.shutdown && |s.reps| == c.n && i < c.n
    requires s.reps[i].isLeader && s.reps[i].phase.Waiting? && s.log != [] && Latest(s).holder == Held(i)
    ensures Takes(c, s, StandDown(i, p), s', i, false)
    ensures p.from == i && p.kind == Release && p.rec == Latest(s).(holder := Blank)
    ensures s'.log == s.log + [Landed(p, s.now)] && |s'.reps| == c.n && !s'.reps[i].isLeader
  {
    var s1 := Step(c, s, Cancel(i)).value;
    var s2 := Step(c, s1, ServeGet(i)).value;
    var s3 := Step(c, s2, HandleRelease(i)).value;
    p :| p in s3.puts && p.from == i && p.kind == Release && p.basis == |s.log| && p.rec == Latest(s).(holder := Blank)
         && s3.puts == s.puts + {p};
    var s4 := LandWrite(s3, p);
    s' := Step(c, s4, EndRelease(i)).value;
    assert Takes(c, s', [], s', i, false);
    FirstTaken(c, s4, EndRelease(i), s', [], s', i, false);
    FirstTaken(c, s3, Land(p), s4, [EndRelease(i)] + [], s', i, false);
    FirstTaken(c, s2, HandleRelease(i), s3, [Land(p)] + ([EndRelease(i)] + []), s', i, false);
    FirstTaken(c, s1, ServeGet(i), s2, [HandleRelease(i)] + ([Land(p)] + ([EndRelease(i)] + [])), s', i, false);
    FirstTaken(c, s, Cancel(i), s1, [ServeGet(i)] + ([HandleRelease(i)] + ([Land(p)] + ([EndRelease(i)] + []))), s', i, false);
    assert [Cancel(i)] + ([ServeGet(i)] + ([HandleRelease(i)] + ([Land(p)] + ([EndRelease(i)] + [])))) == StandDown(i, p);
  }

  /** A release was meant to let a successor in at once.  It does not: whoever writes next is taking over,
      and has had the released record in sight for the length of the lease, like any other. */
  lemma ReleaseHurriesNobody(c: Config, s: State, k: nat)
    requires ValidConfig(c) && Reachable(c, s) && 0 < k < |s.log|
    requires s.log[k - 1].w.kind == Release
    ensures s.log[k].w.kind == TakeOver && s.log[k].at - s.log[k - 1].at >= c.leaseDuration - c.latency
  {
    ReachableHistory(c, s);
    assert EntryOk(c, s.log, k) && EntryOk(c, s.log, k - 1);
    TakeoverWaited(c, s, k);
  }
}
