module HubDelivery {
  // What one connection is handed, in what order, and what still reaches it after it is dropped.

  import opened Wrappers
  import opened Frames
  import opened FrameProofs
  import opened Hub
  import opened HubProofs

  /** The broadcast has begun for the connection and not reached it. */
  ghost predicate Pending(h: State, id: Id, b: nat) {
    b < |h.todo| && id in h.todo[b]
  }

  ghost predicate Idle(h: State, id: Id) {
    forall b: nat :: !Pending(h, id, b)
  }

  // ---- In order, without a gap ------------------------------------------------------

  /** At most one broadcast is under way to the connection, and to a live one only the last. */
  ghost predicate InStep(h: State, id: Id) {
    && |h.todo| == |h.sent|
    && (forall b: nat | Pending(h, id, b) :: id in h.conns && (id in h.live ==> b == |h.sent| - 1))
    && (forall a: nat, b: nat | Pending(h, id, a) && Pending(h, id, b) :: a == b)
    && (id in h.live ==> id in h.conns)
  }

  /** It has been handed the broadcasts since it registered, with no gap. */
  ghost predicate Fed(h: State, id: Id)
    requires id in h.conns
  {
    var c := h.conns[id];
    && c.since <= |h.sent|
    && Delivered(c) <= h.sent[c.since..]
    && (!c.writer.Stopped? ==>
          && Handed(c) <= h.sent[c.since..]
          && (forall b: nat | Pending(h, id, b) :: c.since <= b <= |h.sent| && Handed(c) == h.sent[c.since..b])
          && (id in h.live && Idle(h, id) ==> Handed(c) == h.sent[c.since..]))
  }

  ghost predicate Served(h: State, id: Id) {
    InStep(h, id) && (id in h.conns ==> Fed(h, id))
  }

  lemma SlicesStay<T>(s: seq<T>, x: T, since: nat)
    requires since <= |s|
    ensures (s + [x])[since..] == s[since..] + [x] && (s + [x])[since..|s|] == s[since..]
    ensures forall b | since <= b <= |s| :: (s + [x])[since..b] == s[since..b]
  {
  }

  lemma BeginFeeds(h: State, payload: seq<Byte>, id: Id)
    requires InStep(h, id) && id in h.conns && Fed(h, id)
    requires Enabled(h, Begin(payload)) && (id in h.live ==> Idle(h, id))
    ensures Fed(Next(h, Begin(payload)), id)
  {
    var h', n := Next(h, Begin(payload)), |h.sent|;
    if h' != h {
      SlicesStay(h.sent, payload, h.conns[id].since);
      if id in h.live {
        assert Pending(h', id, n);
        assert forall b: nat | Pending(h', id, b) :: b == n || Pending(h, id, b);
      } else {
        assert forall b: nat :: Pending(h', id, b) <==> Pending(h, id, b);
      }
    }
  }

  lemma BeginServes(h: State, payload: seq<Byte>, id: Id)
    requires Served(h, id) && Enabled(h, Begin(payload)) && (id in h.live ==> Idle(h, id))
    ensures Served(Next(h, Begin(payload)), id)
  {
    assert forall b: nat :: Pending(Next(h, Begin(payload)), id, b) ==> Pending(h, id, b) || (b == |h.sent| && id in h.live);
    if id in h.conns {
      BeginFeeds(h, payload, id);
    }
  }

  lemma RegisterServes(h: State, j: Id, id: Id)
    requires Served(h, id) && j !in h.conns
    ensures Served(Next(h, At(j, Register)), id)
  {
    var h' := Next(h, At(j, Register));
    assert forall b: nat :: Pending(h', id, b) <==> Pending(h, id, b);
    if j == id {
      assert h'.sent[|h.sent|..] == [];
    }
  }

  lemma OtherServes(h: State, j: Id, act: Act, id: Id)
    requires Served(h, id) && j != id && !act.Register? && Enabled(h, At(j, act))
    ensures Served(Next(h, At(j, act)), id)
  {
    var h' := Next(h, At(j, act));
    assert forall b: nat :: Pending(h', id, b) <==> Pending(h, id, b);
  }

  /** An act that is not a delivery leaves what is under way where it is. */
  lemma ActServes(h: State, id: Id, act: Act)
    requires Served(h, id) && !act.Register? && !act.Deliver? && Enabled(h, At(id, act))
    ensures Served(Next(h, At(id, act)), id)
  {
    var h' := Next(h, At(id, act));
    assert forall b: nat :: Pending(h', id, b) <==> Pending(h, id, b);
    ActKeepsMessages(h, h.conns[id], act);
  }

  lemma DeliverServes(h: State, id: Id, b: nat)
    requires Served(h, id) && Enabled(h, At(id, Deliver(b)))
    ensures Served(Next(h, At(id, Deliver(b))), id)
  {
    var h' := Next(h, At(id, Deliver(b)));
    var c := h.conns[id];
    assert Pending(h, id, b);
    assert forall a: nat :: Pending(h', id, a) ==> Pending(h, id, a) && a != b;
    assert Idle(h', id);
    ActKeepsMessages(h, c, Deliver(b));
    if !c.writer.Stopped? {
      assert h.sent[c.since..b + 1] == h.sent[c.since..b] + [h.sent[b]];
      assert h.sent[c.since..b + 1] <= h.sent[c.since..];
    }
  }

  lemma StepServes(h: State, s: Step, id: Id)
    requires Served(h, id) && Enabled(h, s) && (s.Begin? && id in h.live ==> Idle(h, id))
    ensures Served(Next(h, s), id)
  {
    match s
    case Begin(p) => BeginServes(h, p, id);
    case Shutdown => assert forall b: nat :: Pending(Next(h, s), id, b) <==> Pending(h, id, b);
    case At(j, act) =>
      if act.Register? {
        RegisterServes(h, j, id);
      } else if j != id {
        OtherServes(h, j, act, id);
      } else if act.Deliver? {
        DeliverServes(h, id, act.broadcast);
      } else {
        ActServes(h, id, act);
      }
  }

  lemma {:induction false} SerialServes(h: State, steps: seq<Step>, h': State, id: Id)
    requires Served(h, id) && SerialFor(h, steps, id) && Run(h, steps, h')
    ensures Served(h', id)
    decreases |steps|
  {
    if steps != [] {
      if steps[0].Begin? && id in h.live {
        assert Idle(h, id);
      }
      StepServes(h, steps[0], id);
      SerialServes(Next(h, steps[0]), steps[1..], h', id);
    }
  }

  /** As long as no broadcast begins for a dashboard before the last has reached it, it gets a
      gap-free prefix of the broadcasts made since it registered, over every interleaving of
      readers, writers and teardown, and however broadcasts overlap for others. */
  lemma GapFree(h: State, steps: seq<Step>, h': State, id: Id)
    requires Initial(h) && SerialFor(h, steps, id) && Run(h, steps, h') && id in h'.conns
    ensures h'.conns[id].since <= |h'.sent| && Delivered(h'.conns[id]) <= h'.sent[h'.conns[id].since..]
  {
    SerialServes(h, steps, h', id);
  }

  /** End to end.  A peer that decodes its socket by the RFC, at any moment of any run in which
      its broadcasts do not overlap, reads whole frames and at the end nothing it could mistake for
      one; the texts among them are a gap-free prefix of the broadcasts since it registered. */
  lemma PeerReads(h: State, steps: seq<Step>, h': State, id: Id)
    requires Initial(h) && SerialFor(h, steps, id) && Run(h, steps, h') && id in h'.conns
    ensures
      var c := h'.conns[id];
      && WellWritten(c)
      && DecodeMany(WireBytes(c), |Whole(c)|) == Some((WiresOf(Whole(c)), Tail(c))) && Decode(Tail(c)) == None
      && c.since <= |h'.sent| && Texts(WiresOf(Whole(c))) <= h'.sent[c.since..]
  {
    var c := h'.conns[id];
    FramesNeverInterleave(h, steps, h');
    TailDecodesToNothing(c);
    WholeSendable(c);
    StreamDecodes(Whole(c), Tail(c));
    TextsAreDelivered(Whole(c));
    SerialServes(h, steps, h', id);
    WholeIsHanded(c);
  }

  lemma WholeIsHanded(c: Conn)
    ensures Payloads(Whole(c)) == Delivered(c) || (!c.writer.Stopped? && Payloads(Whole(c)) <= Handed(c))
  {
    if c.writer.Writing? {
      PayloadsAppend(c.written, c.writer.frame);
    }
  }

  // ---- What a run hands over --------------------------------------------------------

  predicate HandsTo(h: State, s: Step, id: Id) {
    s.At? && s.id == id && s.act.Deliver? && id in h.conns && |h.conns[id].send| < h.buffer
  }

  /** The broadcasts a run hands the connection, in order. */
  ghost function HandedOn(h: State, steps: seq<Step>, id: Id): seq<nat>
    decreases |steps|
  {
    if steps == [] || !Enabled(h, steps[0]) then []
    else if HandsTo(h, steps[0], id) then [steps[0].act.broadcast] + HandedOn(Next(h, steps[0]), steps[1..], id)
    else HandedOn(Next(h, steps[0]), steps[1..], id)
  }

  function Messages(sent: seq<seq<Byte>>, bs: seq<nat>): (ms: seq<seq<Byte>>)
    requires forall i | 0 <= i < |bs| :: bs[i] < |sent|
    ensures |ms| == |bs| && forall i | 0 <= i < |bs| :: ms[i] == sent[bs[i]]
  {
    seq(|bs|, i requires 0 <= i < |bs| => sent[bs[i]])
  }

  lemma StepHands(h: State, s: Step, id: Id)
    requires |h.todo| == |h.sent| && id in h.conns && Enabled(h, s)
    ensures |Next(h, s).todo| == |Next(h, s).sent| && id in Next(h, s).conns && h.sent <= Next(h, s).sent
    ensures
      var c, c' := h.conns[id], Next(h, s).conns[id];
      && c'.since == c.since
      && (HandsTo(h, s, id) ==> s.act.broadcast < |h.sent|)
      && (c.writer.Stopped? ==> c'.writer.Stopped? && c'.written == c.written)
      && (!c.writer.Stopped? ==> Delivered(c') <= Handed(c))
      && (!c'.writer.Stopped? ==> Handed(c') == if HandsTo(h, s, id) then Handed(c) + [h.sent[s.act.broadcast]] else Handed(c))
  {
    if s.At? && s.id == id && !s.act.Register? {
      ActKeepsMessages(h, h.conns[id], s.act);
      Plain(Handed(h.conns[id]));
    } else {
      DeliveredFirst(h.conns[id]);
    }
  }

  lemma Plain<T>(s: seq<T>)
    ensures s + [] == s
  {
  }

  lemma DeliveredFirst(c: Conn)
    ensures Delivered(c) <= Handed(c)
  {
  }

  /** Over any run a connection's messages grow by exactly what it is handed; what reaches the
      socket is a prefix of them. */
  lemma {:induction false} HandedAfter(h: State, steps: seq<Step>, h': State, id: Id)
    requires |h.todo| == |h.sent| && id in h.conns && Run(h, steps, h')
    ensures |h'.todo| == |h'.sent| && id in h'.conns && h.sent <= h'.sent
    ensures forall i | 0 <= i < |HandedOn(h, steps, id)| :: HandedOn(h, steps, id)[i] < |h'.sent|
    ensures
      var c, c', ms := h.conns[id], h'.conns[id], Messages(h'.sent, HandedOn(h, steps, id));
      && c'.since == c.since
      && (c.writer.Stopped? ==> c'.writer.Stopped? && c'.written == c.written)
      && (!c.writer.Stopped? ==> Delivered(c') <= Handed(c) + ms)
      && (!c'.writer.Stopped? ==> Handed(c') == Handed(c) + ms)
    decreases |steps|
  {
    if steps == [] {
      DeliveredFirst(h.conns[id]);
      Plain(Handed(h.conns[id]));
    } else {
      var s := steps[0];
      var h1 := Next(h, s);
      StepHands(h, s, id);
      HandedAfter(h1, steps[1..], h', id);
      var bs := HandedOn(h1, steps[1..], id);
      if HandsTo(h, s, id) {
        var b := s.act.broadcast;
        assert h'.sent[b] == h.sent[b];
        assert Messages(h'.sent, [b] + bs) == [h.sent[b]] + Messages(h'.sent, bs);
        Regroup(Handed(h.conns[id]), h.sent[b], Messages(h'.sent, bs));
      }
      if h1.conns[id].writer.Stopped? {
        Longer(Delivered(h1.conns[id]), Handed(h.conns[id]), Messages(h'.sent, HandedOn(h, steps, id)));
      }
    }
  }

  lemma Regroup<T>(a: seq<T>, x: T, b: seq<T>)
    ensures (a + [x]) + b == a + ([x] + b)
  {
  }

  lemma Longer<T>(a: seq<T>, b: seq<T>, more: seq<T>)
    requires a <= b
    ensures a <= b + more
  {
  }

  // ---- After a connection is dropped ------------------------------------------------

  /** What a run from h may still bring: broadcasts under way at h, each once. */
  ghost predicate OnceEach(h: State, id: Id, bs: seq<nat>) {
    && (forall i | 0 <= i < |bs| :: Pending(h, id, bs[i]))
    && (forall i, j | 0 <= i < j < |bs| :: bs[i] != bs[j])
  }

  lemma OffStays(h: State, s: Step, id: Id)
    requires |h.todo| == |h.sent| && id in h.conns && id !in h.live && Enabled(h, s)
    ensures id !in Next(h, s).live
    ensures forall b: nat | Pending(Next(h, s), id, b) :: Pending(h, id, b)
    ensures HandsTo(h, s, id) ==> Pending(h, id, s.act.broadcast) && !Pending(Next(h, s), id, s.act.broadcast)
  {
  }

  lemma {:induction false} OnlyPending(h: State, steps: seq<Step>, id: Id)
    requires |h.todo| == |h.sent| && id in h.conns && id !in h.live
    ensures OnceEach(h, id, HandedOn(h, steps, id))
    decreases |steps|
  {
    if steps != [] && Enabled(h, steps[0]) {
      var s := steps[0];
      StepHands(h, s, id);
      OffStays(h, s, id);
      OnlyPending(Next(h, s), steps[1..], id);
    }
  }

  /** Being taken off the registry is not the end of it: a dropped connection is still handed what
      was under way to it, in whatever order that arrives, and nothing that begins afterwards. */
  lemma DroppedGetsOnlyPending(h: State, steps: seq<Step>, h': State, id: Id)
    requires |h.todo| == |h.sent| && id in h.conns && id !in h.live && Run(h, steps, h')
    ensures id in h'.conns && id !in h'.live && OnceEach(h, id, HandedOn(h, steps, id))
    ensures
      var c, c', ms := h.conns[id], h'.conns[id], Messages(h.sent, HandedOn(h, steps, id));
      && (c.writer.Stopped? ==> c'.writer.Stopped? && c'.written == c.written)
      && (!c.writer.Stopped? ==> Delivered(c') <= Handed(c) + ms)
      && (!c'.writer.Stopped? ==> Handed(c') == Handed(c) + ms)
  {
    OnlyPending(h, steps, id);
    HandedAfter(h, steps, h', id);
    var bs := HandedOn(h, steps, id);
    assert forall i | 0 <= i < |bs| :: Pending(h, id, bs[i]);
    assert Messages(h.sent, bs) == Messages(h'.sent, bs);
    StaysOff(h, steps, h', id);
  }

  lemma {:induction false} StaysOff(h: State, steps: seq<Step>, h': State, id: Id)
    requires |h.todo| == |h.sent| && id in h.conns && id !in h.live && Run(h, steps, h')
    ensures id !in h'.live
    decreases |steps|
  {
    if steps != [] {
      StepHands(h, steps[0], id);
      OffStays(h, steps[0], id);
      StaysOff(Next(h, steps[0]), steps[1..], h', id);
    }
  }

  /** The queue is full for good: nobody will ever take a message off it. */
  predicate Spent(buffer: nat, c: Conn) {
    && |c.send| >= buffer
    && (buffer == 0 || c.writer.Stopped? || (c.writer.Writing? && IsClose(c.writer.frame)))
  }

  lemma SpentStays(h: State, s: Step, id: Id)
    requires |h.todo| == |h.sent| && id in h.conns && Spent(h.buffer, h.conns[id]) && Enabled(h, s)
    ensures Next(h, s).buffer == h.buffer && Spent(h.buffer, Next(h, s).conns[id]) && !HandsTo(h, s, id)
  {
  }

  lemma {:induction false} NothingHanded(h: State, steps: seq<Step>, id: Id)
    requires |h.todo| == |h.sent| && id in h.conns
    requires Spent(h.buffer, h.conns[id]) || (id !in h.live && Idle(h, id))
    ensures HandedOn(h, steps, id) == []
    decreases |steps|
  {
    if steps != [] && Enabled(h, steps[0]) {
      var s := steps[0];
      StepHands(h, s, id);
      if Spent(h.buffer, h.conns[id]) {
        SpentStays(h, s, id);
      } else {
        OffStays(h, s, id);
      }
      NothingHanded(Next(h, s), steps[1..], id);
    }
  }

  lemma OneStep(h: State, s: Step, rest: seq<Step>, h': State, id: Id)
    requires Enabled(h, s) && Run(Next(h, s), rest, h')
    ensures Run(h, [s] + rest, h')
    ensures HandedOn(h, [s] + rest, id)
            == if HandsTo(h, s, id) then [s.act.broadcast] + HandedOn(Next(h, s), rest, id) else HandedOn(Next(h, s), rest, id)
    ensures SerialFor(h, [s] + rest, id)
            <==> (s.Begin? && id in h.live ==> Idle(h, id)) && SerialFor(Next(h, s), rest, id)
  {
    assert ([s] + rest)[1..] == rest;
    assert Idle(h, id) <==> forall b | 0 <= b < |h.todo| :: id !in h.todo[b] by {
      if forall b | 0 <= b < |h.todo| :: id !in h.todo[b] {
        assert forall b: nat :: !Pending(h, id, b);
      } else {
        var b :| 0 <= b < |h.todo| && id in h.todo[b];
        assert Pending(h, id, b);
      }
    }
  }

  /** The next move towards room in the queue. */
  function Towards(c: Conn): Act
    requires c.writer.Waiting? || c.writer.Writing?
  {
    if c.writer.Waiting? then TakeData
    else if c.writer.sent < |Encoded(c.writer.frame)| then Push(|Encoded(c.writer.frame)| - c.writer.sent)
    else Finish
  }

  function Distance(h: State, c: Conn): nat {
    if |c.send| < h.buffer then 0
    else if c.writer.Waiting? then 1
    else if c.writer.Writing? && c.writer.sent < |Encoded(c.writer.frame)| then 3
    else 2
  }

  lemma Nearer(h: State, id: Id, b: nat)
    requires id in h.conns && |h.conns[id].send| == h.buffer && !Spent(h.buffer, h.conns[id]) && WellWritten(h.conns[id])
    requires |h.todo| == |h.sent| && Pending(h, id, b)
    ensures !h.conns[id].writer.Stopped? && Enabled(h, At(id, Towards(h.conns[id])))
    ensures
      var h1 := Next(h, At(id, Towards(h.conns[id])));
      && id in h1.conns && |h1.conns[id].send| <= h1.buffer && !Spent(h1.buffer, h1.conns[id]) && WellWritten(h1.conns[id])
      && |h1.todo| == |h1.sent| && Pending(h1, id, b)
      && Distance(h1, h1.conns[id]) < Distance(h, h.conns[id])
  {
  }

  /** What is under way can get through as long as the queue is not full for good. */
  lemma {:induction false} CanHand(h: State, id: Id, b: nat) returns (steps: seq<Step>, h': State)
    requires id in h.conns && |h.conns[id].send| <= h.buffer && !Spent(h.buffer, h.conns[id]) && WellWritten(h.conns[id])
    requires |h.todo| == |h.sent| && Pending(h, id, b)
    ensures Run(h, steps, h') && HandedOn(h, steps, id) == [b]
    decreases Distance(h, h.conns[id])
  {
    if |h.conns[id].send| < h.buffer {
      var s := At(id, Deliver(b));
      h' := Next(h, s);
      OneStep(h, s, [], h', id);
      steps := [s] + [];
    } else {
      Nearer(h, id, b);
      var s := At(id, Towards(h.conns[id]));
      var rest;
      rest, h' := CanHand(Next(h, s), id, b);
      OneStep(h, s, rest, h', id);
      steps := [s] + rest;
    }
  }

  // ---- Reachable states -------------------------------------------------------------

  ghost predicate Reachable(h: State) {
    exists h0, steps :: Initial(h0) && Run(h0, steps, h)
  }

  lemma {:induction false} ClosedIsEmpty(h: State, steps: seq<Step>, h': State)
    requires (h.closed ==> h.live == {}) && Run(h, steps, h')
    ensures h'.closed ==> h'.live == {}
    decreases |steps|
  {
    if steps != [] {
      ClosedIsEmpty(Next(h, steps[0]), steps[1..], h');
    }
  }

  lemma ReachableFacts(h: State, id: Id)
    requires Reachable(h)
    ensures Named(h) && (h.closed ==> h.live == {}) && (id in h.conns ==> WellWritten(h.conns[id]) && |h.conns[id].send| <= h.buffer)
  {
    var h0, steps :| Initial(h0) && Run(h0, steps, h);
    RunOnce(h0, steps, h);
    FramesNeverInterleave(h0, steps, h);
    ClosedIsEmpty(h0, steps, h);
    QueuesBounded(h0, steps, h);
  }

  /** No run from here hands the connection anything. */
  ghost predicate OutOfReach(h: State, id: Id) {
    forall steps, h' | Run(h, steps, h') :: HandedOn(h, steps, id) == []
  }

  /** Exactly when a dropped connection is out of reach: its queue is full for good, or nothing was
      under way to it. */
  lemma NothingMoreIff(h: State, id: Id)
    requires Reachable(h) && id in h.conns && id !in h.live
    ensures OutOfReach(h, id) <==> Spent(h.buffer, h.conns[id]) || Idle(h, id)
  {
    ReachableFacts(h, id);
    if Spent(h.buffer, h.conns[id]) || Idle(h, id) {
      forall steps, h' | Run(h, steps, h')
        ensures HandedOn(h, steps, id) == []
      {
        NothingHanded(h, steps, id);
      }
    } else {
      var b: nat :| Pending(h, id, b);
      var steps, h' := CanHand(h, id, b);
      assert Run(h, steps, h') && HandedOn(h, steps, id) != [];
    }
  }

  /** So the registry is no promise: a dashboard says goodbye with one broadcast under way, is taken
      off at once, and its writer still sends it that broadcast. */
  lemma DroppedIsStillHanded(buffer: nat,
                             a: seq<Byte>) returns (h0: State, before: seq<Step>, h: State, after: seq<Step>, h': State)
    requires buffer >= 1 && Sendable(Data(a))
    ensures Initial(h0) && Run(h0, before, h) && SerialFor(h0, before, 0) && Run(h, after, h') && SerialFor(h, after, 0)
    ensures 0 in h.conns && 0 !in h.live && Handed(h.conns[0]) == []
    ensures 0 in h'.conns && Handed(h'.conns[0]) == [a] && h'.conns[0].writer == Writing(Data(a), 0)
  {
    h0 := State(buffer, false, {}, {}, map[], [], []);
    var h1 := Next(h0, At(0, Register));
    assert h1.live == {0} && forall b: nat :: !Pending(h1, 0, b);
    var rest;
    rest, h := BroadcastThenGoodbye(h1, a);
    OneStep(h0, At(0, Register), rest, h, 0);
    before := [At(0, Register)] + rest;
    after, h' := SentAllTheSame(h, a);
  }

  lemma BroadcastThenGoodbye(h1: State, a: seq<Byte>) returns (steps: seq<Step>, h: State)
    requires !h1.closed && h1.live == {0} && h1.sent == [] && h1.todo == [] && Sendable(Data(a))
    requires h1.conns == map[0 := Hub.Fresh(0)]
    ensures Run(h1, steps, h) && SerialFor(h1, steps, 0)
    ensures h.live == {} && h.sent == [a] && h.todo == [{0}] && 0 in h.conns && h.buffer == h1.buffer
    ensures h.conns[0] == Dismissed(Hub.Fresh(0).(reading := false), CLOSE_NORMAL)
  {
    var h2 := Next(h1, Begin(a));
    h := Next(h2, At(0, Hear(SaidClose)));
    assert forall b: nat :: !Pending(h1, 0, b);
    OneStep(h2, At(0, Hear(SaidClose)), [], h, 0);
    OneStep(h1, Begin(a), [At(0, Hear(SaidClose))] + [], h, 0);
    steps := [Begin(a)] + ([At(0, Hear(SaidClose))] + []);
  }

  lemma SentAllTheSame(h: State, a: seq<Byte>) returns (steps: seq<Step>, h': State)
    requires h.buffer >= 1 && h.live == {} && h.sent == [a] && h.todo == [{0}] && 0 in h.conns
    requires h.conns[0] == Dismissed(Hub.Fresh(0).(reading := false), CLOSE_NORMAL)
    ensures Run(h, steps, h') && SerialFor(h, steps, 0)
    ensures 0 in h'.conns && Handed(h'.conns[0]) == [a] && h'.conns[0].writer == Writing(Data(a), 0)
  {
    var h1 := Next(h, At(0, Deliver(0)));
    h' := Next(h1, At(0, TakeData));
    assert h1.conns[0].send == [a];
    OneStep(h1, At(0, TakeData), [], h', 0);
    OneStep(h, At(0, Deliver(0)), [At(0, TakeData)] + [], h', 0);
    steps := [At(0, Deliver(0))] + ([At(0, TakeData)] + []);
  }

  // ---- When broadcasts overlap ------------------------------------------------------

  lemma TwoDeliveries(h: State, id: Id, a: nat, b: nat) returns (steps: seq<Step>, h': State)
    requires id in h.conns && |h.todo| == |h.sent| && |h.conns[id].send| + 2 <= h.buffer
    requires a != b && Pending(h, id, a) && Pending(h, id, b)
    ensures Run(h, steps, h') && HandedOn(h, steps, id) == [a, b] && h'.sent == h.sent && id in h'.conns
    ensures !h.conns[id].writer.Stopped? ==> !h'.conns[id].writer.Stopped?
  {
    var h1 := Next(h, At(id, Deliver(a)));
    h' := Next(h1, At(id, Deliver(b)));
    OneStep(h1, At(id, Deliver(b)), [], h', id);
    OneStep(h, At(id, Deliver(a)), [At(id, Deliver(b))] + [], h', id);
    steps := [At(id, Deliver(a))] + ([At(id, Deliver(b))] + []);
  }

  /** And the hypothesis is needed, from wherever a run has got to: one more broadcast for a live
      connection that an earlier one has yet to reach, and room for both, and the later can come
      first.  A connection in step until then is left with a gap. */
  lemma OverlapReorders(h: State, id: Id, b: nat, payload: seq<Byte>) returns (steps: seq<Step>, h': State)
    requires Reachable(h) && id in h.live && Pending(h, id, b) && Sendable(Data(payload))
    requires id in h.conns && |h.conns[id].send| + 2 <= h.buffer
    ensures Run(h, steps, h') && !SerialFor(h, steps, id)
    ensures h'.sent == h.sent + [payload] && b < |h.sent| && HandedOn(h, steps, id) == [|h.sent|, b]
    ensures id in h'.conns && h'.conns[id].since == h.conns[id].since
    ensures !h.conns[id].writer.Stopped? ==> Handed(h'.conns[id]) == Handed(h.conns[id]) + [payload, h.sent[b]]
    ensures Served(h, id) && !h.conns[id].writer.Stopped? && payload != h.sent[b] ==>
              !(Handed(h'.conns[id]) <= h'.sent[h'.conns[id].since..])
  {
    ReachableFacts(h, id);
    var n := |h.sent|;
    var h1 := Next(h, Begin(payload));
    assert h1.sent == h.sent + [payload] && h1.todo == h.todo + [h.live];
    var rest;
    rest, h' := TwoDeliveries(h1, id, n, b);
    OneStep(h, Begin(payload), rest, h', id);
    steps := [Begin(payload)] + rest;
    HandedAfter(h, steps, h', id);
    assert Messages(h'.sent, [n, b]) == [payload, h.sent[b]];
    if !h.conns[id].writer.Stopped? {
      assert !h'.conns[id].writer.Stopped?;
      if Served(h, id) && payload != h.sent[b] {
        OutOfStep(h, id, b, payload, Handed(h.conns[id]));
      }
    }
  }

  lemma OutOfStep(h: State, id: Id, b: nat, payload: seq<Byte>, handed: seq<seq<Byte>>)
    requires id in h.conns && h.conns[id].since <= b < |h.sent| && handed == h.sent[h.conns[id].since..b] && payload != h.sent[b]
    ensures !(handed + [payload, h.sent[b]] <= (h.sent + [payload])[h.conns[id].since..])
  {
    var since := h.conns[id].since;
    assert (handed + [payload, h.sent[b]])[b - since] == payload;
    assert (h.sent + [payload])[since..][b - since] == h.sent[b];
  }
}
