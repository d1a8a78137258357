/** Leader election over one Lease object (internal/k8s/lease.go).

    N replicas share one API server.  A replica is a small automaton: it polls the
    lease, rewrites it with a compare-and-swap on resourceVersion, and stands down when
    it cannot renew.  Requests take time, replies get lost, and a write that the client
    gave up on may still land later.  Replicas may be killed and restarted with the same
    identity at any moment, and each reads its own clock, which is a fixed offset away
    from real time.  Times are nanoseconds, as in Go's time.Duration.  */
module Lease {
  import opened Wrappers

  /** What `release` allows itself before it gives up. */
  const RELEASE_TIMEOUT: int := 3_000_000_000

  /** `latency` bounds one attempt at the lease, from its clock reading to the moment it
      is answered or abandoned.  `shutdown` says whether contexts may be cancelled while
      leading, which is what makes a leader call `release`.  `skew[i]` is how far replica
      i's clock is ahead of real time. */
  datatype Config = Config(
    n: nat,
    leaseDuration: int,
    renewDeadline: int,
    retryPeriod: int,
    latency: int,
    shutdown: bool,
    skew: seq<int>)

  ghost predicate ValidConfig(c: Config) {
    && 0 < c.leaseDuration && 0 < c.renewDeadline && 0 < c.retryPeriod && 0 <= c.latency
    && |c.skew| == c.n
  }

  // ---- The object and the writes that made it ---------------------------------------

  datatype Holder = Blank | Held(id: nat)

  datatype Record = Record(holder: Holder, transitions: nat)

  datatype Kind = Create | Renew | TakeOver | Release

  /** A write of the lease.  `basis` is the resourceVersion it replaces (0: the object does
      not exist yet).  `startedAt` and `seenAt` are history: the instant the attempt began,
      and the instant the server first showed this basis to the writer. */
  datatype Write = Write(
    from: nat,
    attempt: nat,
    kind: Kind,
    basis: nat,
    rec: Record,
    startedAt: int,
    seenAt: int)

  datatype Landed = Landed(w: Write, at: int)

  // ---- One replica ------------------------------------------------------------------

  /** What the elector remembers between attempts; observedRV 0 is the empty string. */
  datatype Memory = Memory(observedRV: nat, observedAt: int, transitions: nat)

  datatype Verdict =
    | Wait                                // someone else holds a live lease
    | Propose(kind: Kind, rec: Record)    // send this record as a PUT (or POST)

  /** The local half of an attempt, once the GET is answered: what is remembered, and
      what is written.  `now` is the replica's own clock, read before the GET. */
  function Judge(m: Memory, id: nat, leaseDuration: int, now: int, rv: nat, cur: Record): (r: (Memory, Verdict))
    requires 0 < rv
  {
    var m1 := if rv != m.observedRV then Memory(rv, now, cur.transitions)
              else m.(transitions := cur.transitions);
    var mine := cur.holder == Held(id);
    var expired := now - m1.observedAt >= leaseDuration;
    if !mine && !expired then (m1, Wait)
    else if mine then (m1, Propose(Renew, cur.(holder := Held(id))))
    else (m1, Propose(TakeOver, Record(Held(id), m1.transitions + 1)))
  }

  /** The elector's own fields, updated as an attempt goes along. */
  class LeaderElector {
    const identity: nat
    const leaseDuration: int
    var isLeader: bool
    var observedRV: nat
    var observedAt: int
    var transitions: nat

    constructor (identity: nat, leaseDuration: int)
      ensures this.identity == identity && this.leaseDuration == leaseDuration
      ensures !isLeader && Remembered() == Memory(0, 0, 0)
    {
      this.identity, this.leaseDuration := identity, leaseDuration;
      isLeader, observedRV, observedAt, transitions := false, 0, 0, 0;
    }

    function Remembered(): Memory
      reads this
    {
      Memory(observedRV, observedAt, transitions)
    }

    /** The lease has been read: note what was seen, and decide whether to write it.  One's own
        lease is renewed as it is; another's is left alone while less than the lease has passed since
        this version was first seen, and then taken over with one more transition. */
    method Observe(now: int, rv: nat, cur: Record) returns (v: Verdict)
      requires 0 < rv
      modifies this
      ensures (Remembered(), v) == Judge(old(Remembered()), identity, leaseDuration, now, rv, cur)
      ensures isLeader == old(isLeader)
      ensures observedRV == rv && observedAt == (if rv == old(observedRV) then old(observedAt) else now)
      ensures cur.holder == Held(identity) ==> v == Propose(Renew, cur)
      ensures cur.holder != Held(identity) && now - observedAt < leaseDuration ==> v == Wait
      ensures cur.holder != Held(identity) && now - observedAt >= leaseDuration
              ==> v == Propose(TakeOver, Record(Held(identity), cur.transitions + 1))
    {
      var mine := cur.holder == Held(identity);
      if rv != observedRV {
        observedRV := rv;
        observedAt := now;
      }
      transitions := cur.transitions;
      var expired := now - observedAt >= leaseDuration;
      if !mine && !expired {
        return Wait;
      }
      var next := cur.(holder := Held(identity));
      if mine {
        return Propose(Renew, next);
      }
      return Propose(TakeOver, next.(transitions := transitions + 1));
    }

    /** The answer to an attempt, or its absence, is what raises and lowers the flag. */
    method Conclude(ok: bool)
      modifies this
      ensures isLeader == ok && Remembered() == old(Remembered())
    {
      isLeader := ok;
    }
  }

  datatype Phase =
    | Waiting(since: int)
    | Getting(start: int)
    | GotLease(start: int, rv: nat, readAt: int)          // rv 0: not found
    | Putting(start: int)
    | Answered(start: int, ok: bool, rv: nat, at: int)    // the reply is on its way back
    | ReleaseGetting(start: int)
    | ReleaseGot(start: int, rv: nat)
    | ReleasePutting(start: int)

  /** `attempt` tags requests, so that a late reply is never taken for a fresh one.
      ackedRV, ackedAt and seenAt are history: the write that made this replica leader (or
      kept it so) with the instant it landed, and when observedRV was first shown to it. */
  datatype Replica = Replica(
    isLeader: bool,
    memory: Memory,
    phase: Phase,
    attempt: nat,
    ackedRV: nat,
    ackedAt: int,
    seenAt: int)

  datatype State = State(now: int, reps: seq<Replica>, puts: set<Write>, log: seq<Landed>)

  function Newborn(attempt: nat, now: int): Replica {
    Replica(false, Memory(0, 0, 0), Waiting(now), attempt, 0, 0, 0)
  }

  function Init(c: Config): State {
    State(0, seq(c.n, _ => Newborn(0, 0)), {}, [])
  }

  /** The record a resourceVersion stands for. */
  function At(log: seq<Landed>, rv: nat): Record
    requires 0 < rv <= |log|
  {
    log[rv - 1].w.rec
  }

  // ---- Time -------------------------------------------------------------------------

  function Min(a: int, b: int): int { if a <= b then a else b }

  /** A renewal runs under its own context, bounded by RenewDeadline. */
  function RenewBound(c: Config): int { Min(c.latency, c.renewDeadline) }

  function ReleaseBound(c: Config): int { if c.shutdown then RELEASE_TIMEOUT else 0 }

  /** May replica `r` still be in its phase at instant t? */
  predicate MayLinger(c: Config, r: Replica, t: int) {
    match r.phase
    case Waiting(since) => r.isLeader ==> t <= since + c.retryPeriod
    case ReleaseGetting(start) => t <= start + RELEASE_TIMEOUT
    case ReleaseGot(start, _) => t <= start + RELEASE_TIMEOUT
    case ReleasePutting(start) => t <= start + RELEASE_TIMEOUT
    case _ => t <= r.phase.start + if r.isLeader then RenewBound(c) else c.latency
  }

  // ---- The steps --------------------------------------------------------------------

  datatype Action =
    | Tick(d: nat)         // time passes
    | Start(i: nat)        // begin an attempt: read the clock, send the GET
    | ServeGet(i: nat)     // the server answers a GET
    | Handle(i: nat)       // the replica judges what it read
    | Land(p: Write)       // the server processes a write, wanted or long abandoned
    | Finish(i: nat)       // the replica gets the reply to its write
    | Abandon(i: nat)      // an attempt ends in an error or a timeout
    | Cancel(i: nat)       // a leader's context is cancelled: it begins to release
    | HandleRelease(i: nat)
    | EndRelease(i: nat)
    | Crash(i: nat)        // the process dies; a fresh one starts under the same identity

  function InAttempt(ph: Phase): bool {
    ph.Getting? || ph.GotLease? || ph.Putting? || ph.Answered?
  }

  function Releasing(ph: Phase): bool {
    ph.ReleaseGetting? || ph.ReleaseGot? || ph.ReleasePutting?
  }

  function Set(s: State, i: nat, r: Replica): State
    requires i < |s.reps|
  {
    s.(reps := s.reps[i := r])
  }

  function Step(c: Config, s: State, a: Action): (r: Option<State>)
    requires ValidConfig(c) && |s.reps| == c.n
    ensures r.Some? ==> |r.value.reps| == c.n
  {
    match a
    case Tick(d) =>
      if forall i | 0 <= i < |s.reps| :: MayLinger(c, s.reps[i], s.now + d)
      then Some(s.(now := s.now + d)) else None
    case Land(p) => if p in s.puts then Some(LandWrite(s, p)) else None
    case _ =>
      if a.i >= c.n then None else StepReplica(c, s, a)
  }

  function StepReplica(c: Config, s: State, a: Action): (r: Option<State>)
    requires ValidConfig(c) && |s.reps| == c.n
    requires !a.Tick? && !a.Land? && a.i < c.n
    ensures r.Some? ==> |r.value.reps| == c.n
  {
    var i := a.i;
    var r := s.reps[i];
    match a
    case Start(_) =>
      if r.phase.Waiting?
      then Some(Set(s, i, r.(phase := Getting(s.now), attempt := r.attempt + 1))) else None
    case ServeGet(_) =>
      if r.phase.Getting? then Some(Set(s, i, r.(phase := GotLease(r.phase.start, |s.log|, s.now))))
      else if r.phase.ReleaseGetting? then Some(Set(s, i, r.(phase := ReleaseGot(r.phase.start, |s.log|))))
      else None
    case Handle(_) =>
      if r.phase.GotLease? && r.phase.rv <= |s.log| then Some(HandleGet(c, s, i)) else None
    case Finish(_) =>
      if !r.phase.Answered? then None
      else if r.phase.ok
      then Some(Set(s, i, r.(isLeader := true, phase := Waiting(s.now),
                             ackedRV := r.phase.rv, ackedAt := r.phase.at)))
      else Some(Set(s, i, r.(isLeader := false, phase := Waiting(s.now))))
    case Abandon(_) =>
      if InAttempt(r.phase) then Some(Set(s, i, r.(isLeader := false, phase := Waiting(s.now)))) else None
    case Cancel(_) =>
      if c.shutdown && r.isLeader && !Releasing(r.phase)
      then Some(Set(s, i, r.(phase := ReleaseGetting(s.now), attempt := r.attempt + 1))) else None
    case HandleRelease(_) =>
      if r.phase.ReleaseGot? && r.phase.rv <= |s.log| then Some(HandleReleaseGet(s, i)) else None
    case EndRelease(_) =>
      if Releasing(r.phase) then Some(Set(s, i, r.(isLeader := false, phase := Waiting(s.now)))) else None
    case Crash(_) =>
      Some(Set(s, i, Newborn(r.attempt + 1, s.now)))
  }

  /** The second half of tryAcquireOrRenew, from the answer of the GET to the PUT. */
  function HandleGet(c: Config, s: State, i: nat): (s': State)
    requires ValidConfig(c) && |s.reps| == c.n && i < c.n
    requires s.reps[i].phase.GotLease? && s.reps[i].phase.rv <= |s.log|
    ensures |s'.reps| == c.n
  {
    var r := s.reps[i];
    var GotLease(start, rv, readAt) := r.phase;
    if rv == 0 then
      var p := Write(i, r.attempt, Create, 0, Record(Held(i), 0), start, readAt);
      Set(s, i, r.(phase := Putting(start))).(puts := s.puts + {p})
    else
      var (m, v) := Judge(r.memory, i, c.leaseDuration, start + c.skew[i], rv, At(s.log, rv));
      var seen := if rv != r.memory.observedRV then readAt else r.seenAt;
      match v
      case Wait =>
        Set(s, i, r.(isLeader := false, memory := m, seenAt := seen, phase := Waiting(s.now)))
      case Propose(kind, rec) =>
        var p := Write(i, r.attempt, kind, rv, rec, start, seen);
        Set(s, i, r.(memory := m, seenAt := seen, phase := Putting(start))).(puts := s.puts + {p})
  }

  /** The second half of release: blank the holder, but only if it is still ours. */
  function HandleReleaseGet(s: State, i: nat): (s': State)
    requires i < |s.reps| && s.reps[i].phase.ReleaseGot? && s.reps[i].phase.rv <= |s.log|
    ensures |s'.reps| == |s.reps|
  {
    var r := s.reps[i];
    var rv := r.phase.rv;
    if rv == 0 || At(s.log, rv).holder != Held(i) then
      Set(s, i, r.(isLeader := false, phase := Waiting(s.now)))
    else
      var p := Write(i, r.attempt, Release, rv, At(s.log, rv).(holder := Blank), r.phase.start, s.now);
      Set(s, i, r.(phase := ReleasePutting(r.phase.start))).(puts := s.puts + {p})
  }

  /** The API server: accept the write iff nothing replaced the version it was based on. */
  function LandWrite(s: State, p: Write): (s': State)
    ensures |s'.reps| == |s.reps|
  {
    var ok := p.basis == |s.log|;
    var log := if ok then s.log + [Landed(p, s.now)] else s.log;
    var reps :=
      if p.from < |s.reps| && s.reps[p.from].attempt == p.attempt && s.reps[p.from].phase.Putting?
      then s.reps[p.from := s.reps[p.from].(phase := Answered(s.reps[p.from].phase.start, ok, |log|, s.now))]
      else s.reps;
    s.(log := log, reps := reps, puts := s.puts - {p})
  }

  /** The state after a schedule of steps, if every step was enabled when taken. */
  function Run(c: Config, acts: seq<Action>): (r: Option<State>)
    requires ValidConfig(c)
    ensures r.Some? ==> |r.value.reps| == c.n
  {
    if |acts| == 0 then Some(Init(c))
    else
      match Run(c, acts[..|acts| - 1])
      case None => None
      case Some(s) => Step(c, s, acts[|acts| - 1])
  }

  ghost predicate Reachable(c: Config, s: State)
    requires ValidConfig(c)
  {
    exists acts :: Run(c, acts) == Some(s)
  }

  ghost predicate AtMostOneLeader(s: State) {
    forall i, j | 0 <= i < |s.reps| && 0 <= j < |s.reps| :: s.reps[i].isLeader && s.reps[j].isLeader ==> i == j
  }

  /** From the landing of the write that made a replica leader to the latest instant its
      flag can still be up: the reply, the wait for the next tick, a failing renewal, and
      (on shutdown) the release. */
  function LeadBound(c: Config): int {
    c.latency + c.retryPeriod + RenewBound(c) + ReleaseBound(c)
  }

  /** A challenger's wait may have started up to one latency before the write it watches. */
  predicate Safe(c: Config) {
    c.leaseDuration > c.latency + LeadBound(c)
  }
}
