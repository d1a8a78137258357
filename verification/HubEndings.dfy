module HubEndings {
  // How a connection ends: what it is told, who takes it off the registry, and when its socket is gone.

  import opened Wrappers
  import opened Frames
  import opened FrameProofs
  import opened Hub
  import HubReader

  // ---- What is said -----------------------------------------------------------------

  /** A client too slow to take a broadcast is told so, and loses that broadcast alone. */
  lemma SlowIsTold(h: State, c: Conn, b: nat, more: seq<Byte>)
    requires b < |h.sent| && |c.send| >= h.buffer && !c.done
    ensures Acted(h, c, Deliver(b)) == c.(offers := c.offers + [Close(1013)], closing := true)
    ensures Decode(Encoded(Control(Close(1013))) + more)
            == Some((Wire(true, 0, 8, None, Seven, PutBigEndian(1013, 2) + Ascii("client too slow")), more))
  {
    HubReader.GoodbyeDecodes(1013, "client too slow", more);
  }

  /** At a shutdown every client is told that too. */
  lemma FarewellIsTold(h: State, c: Conn, more: seq<Byte>)
    requires !c.done
    ensures Acted(h, c, Farewell) == c.(offers := c.offers + [Close(1001)], closing := true)
    ensures Decode(Encoded(Control(Close(1001))) + more)
            == Some((Wire(true, 0, 8, None, Seven, PutBigEndian(1001, 2) + Ascii("server shutting down")), more))
  {
    HubReader.GoodbyeDecodes(1001, "server shutting down", more);
  }

  // ---- Who is told ------------------------------------------------------------------

  /** After a shutdown, whatever happens, a connection is still owed its farewell exactly when it was
      registered then and has not had it; so each has it once, and no other has it. */
  lemma {:induction false} FarewellOnce(h: State, steps: seq<Step>, h': State, id: Id)
    requires h.closed && Run(h, steps, h')
    ensures h'.closed && (id in h'.farewell <==> id in h.farewell && At(id, Farewell) !in steps)
    decreases |steps|
  {
    if steps != [] {
      assert steps == [steps[0]] + steps[1..];
      FarewellOnce(Next(h, steps[0]), steps[1..], h', id);
    }
  }

  lemma ShutdownOwes(h: State, steps: seq<Step>, h': State, id: Id)
    requires !h.closed && Run(Next(h, Shutdown), steps, h')
    ensures id in h'.farewell <==> id in h.live && At(id, Farewell) !in steps
    ensures Next(h, Shutdown).live == {}
  {
    FarewellOnce(Next(h, Shutdown), steps, h', id);
  }

  // ---- Who is on the registry -------------------------------------------------------

  /** A step that takes a connection off the registry: a shutdown, a broadcast it has no room for, the
      farewell, a Close or a frame it should not have sent, and the end of its own goroutines. */
  predicate TakesOff(h: State, s: Step, id: Id) {
    || s.Shutdown?
    || (s.At? && s.id == id && id in h.conns
        && (s.act.Farewell? || s.act.Leave? || (s.act.Deliver? && |h.conns[id].send| >= h.buffer)
            || (s.act.Hear? && (s.act.heard.SaidClose? || s.act.heard.Malformed?))))
  }

  /** A connection is registered exactly when it was and nothing takes it off, or it has just come to a
      hub that is open. */
  lemma RegisteredIff(h: State, s: Step, id: Id)
    requires Enabled(h, s)
    ensures id in Next(h, s).live <==> (id in h.live && !TakesOff(h, s, id)) || (s == At(id, Register) && !h.closed)
  {
  }

  // ---- When the socket is gone ------------------------------------------------------

  /** What closes a socket: the peer hanging up, the grace after a goodbye running out, a write that
      fails, and a Close written whole. */
  predicate Closes(c: Conn, act: Act) {
    || act.Expire? || act.Fail? || (act.Hear? && act.heard.HungUp?)
    || (act.Finish? && c.writer.Writing? && IsClose(c.writer.frame))
  }

  /** A socket is gone exactly when it was, or something closes it; and no connection leaves before that. */
  lemma GoneIff(h: State, c: Conn, act: Act)
    requires Can(c, act) && (act.Deliver? ==> act.broadcast < |h.sent|)
    ensures Acted(h, c, act).done <==> c.done || Closes(c, act)
    ensures act.Leave? ==> c.done
  {
  }

  /** Once it is gone it stays gone, no further goodbye is prepared for it, and it may leave. */
  lemma GoneStaysGone(h: State, c: Conn, act: Act)
    requires c.done && Can(c, act) && (act.Deliver? ==> act.broadcast < |h.sent|)
    ensures
      var c' := Acted(h, c, act);
      c'.done && Can(c', Leave) && (act.Deliver? || act.Farewell? ==> c'.offers == c.offers && !(!c.closing && c'.closing))
  {
  }

  // ---- Control frames ---------------------------------------------------------------

  function Bag(o: Outgoing): multiset<Ctl> {
    if o.Control? then multiset{o.ctl} else multiset{}
  }

  function InHand(w: Writer): multiset<Ctl> {
    if w.Writing? then Bag(w.frame) else multiset{}
  }

  function Sent(written: seq<Outgoing>): multiset<Ctl> {
    if written == [] then multiset{} else Sent(written[..|written| - 1]) + Bag(written[|written| - 1])
  }

  /** The control frames at a connection: about to be handed over, queued, being written, written. */
  function Controls(c: Conn): multiset<Ctl> {
    multiset(c.offers) + multiset(c.control) + InHand(c.writer) + Sent(c.written)
  }

  /** What an act prepares: a Pong for a Ping, and a goodbye while the socket is there. */
  function Prepared(h: State, c: Conn, act: Act): multiset<Ctl> {
    if act.Hear? then Answers(c, act.heard)
    else if act.Farewell? then Goodbye(c, 1001)
    else if act.Deliver? && |c.send| >= h.buffer then Goodbye(c, 1013)
    else multiset{}
  }

  function Answers(c: Conn, heard: Heard): multiset<Ctl> {
    match heard
    case Pinged(p) => multiset{Pong(p)}
    case SaidClose => Goodbye(c, 1000)
    case Malformed(code) => Goodbye(c, code)
    case _ => multiset{}
  }

  function Goodbye(c: Conn, code: nat): multiset<Ctl> {
    if c.done then multiset{} else multiset{Close(code)}
  }

  /** And what it loses: a frame for which four are already queued, and one whose writing fails. */
  function Lost(c: Conn, act: Act): multiset<Ctl>
    requires Can(c, act)
  {
    if act.Land? && |c.control| >= 4 then multiset{c.offers[act.offer]}
    else if act.Fail? then InHand(c.writer)
    else multiset{}
  }

  /** What an act leaves and what it loses is what there was and what it prepares. */
  ghost predicate Balanced(h: State, c: Conn, act: Act)
    requires Can(c, act) && (act.Deliver? ==> act.broadcast < |h.sent|)
  {
    Controls(Acted(h, c, act)) + Lost(c, act) == Controls(c) + Prepared(h, c, act)
  }

  lemma OneOut<T>(s: seq<T>, i: nat)
    requires i < |s|
    ensures multiset(s) == multiset(s[..i] + s[i + 1..]) + multiset{s[i]}
  {
    assert s == s[..i] + [s[i]] + s[i + 1..];
  }

  lemma SentMore(written: seq<Outgoing>, o: Outgoing)
    ensures Sent(written + [o]) == Sent(written) + Bag(o)
  {
    assert (written + [o])[..|written|] == written;
  }

  lemma Queues(c: Conn, c': Conn, x: Ctl)
    requires multiset(c.offers) == multiset(c'.offers) + multiset{x} && c'.writer == c.writer && c'.written == c.written
    ensures c'.control == c.control + [x] ==> Controls(c') == Controls(c)
    ensures c'.control == c.control ==> Controls(c') + multiset{x} == Controls(c)
  {
  }

  lemma LandConserves(h: State, c: Conn, i: nat)
    requires Can(c, Land(i))
    ensures Balanced(h, c, Land(i))
  {
    OneOut(c.offers, i);
    Queues(c, Acted(h, c, Land(i)), c.offers[i]);
  }

  lemma Takes(c: Conn, c': Conn, x: Ctl)
    requires multiset(c.control) == multiset(c'.control) + multiset{x} && c'.offers == c.offers && c'.written == c.written
    requires InHand(c.writer) == multiset{} && InHand(c'.writer) == multiset{x}
    ensures Controls(c') == Controls(c)
  {
  }

  lemma TakeConserves(h: State, c: Conn)
    requires Can(c, TakeControl)
    ensures Balanced(h, c, TakeControl)
  {
    FirstOut(c.control);
    TakeIs(h, c);
    Takes(c, Acted(h, c, TakeControl), c.control[0]);
  }

  lemma FirstOut<T>(s: seq<T>)
    requires s != []
    ensures multiset(s) == multiset(s[1..]) + multiset{s[0]}
  {
    assert s == [s[0]] + s[1..];
  }

  lemma TakeIs(h: State, c: Conn)
    requires Can(c, TakeControl)
    ensures
      var c' := Acted(h, c, TakeControl);
      && c'.offers == c.offers && c'.control == c.control[1..] && c'.written == c.written
      && InHand(c.writer) == multiset{} && InHand(c'.writer) == multiset{c.control[0]}
  {
  }

  lemma Writes(c: Conn, c': Conn)
    requires c'.offers == c.offers && c'.control == c.control && InHand(c'.writer) == multiset{}
    requires Sent(c'.written) == Sent(c.written) + InHand(c.writer)
    ensures Controls(c') == Controls(c)
  {
  }

  lemma FinishConserves(h: State, c: Conn)
    requires Can(c, Finish)
    ensures Balanced(h, c, Finish)
  {
    SentMore(c.written, c.writer.frame);
    FinishIs(h, c);
    Writes(c, Acted(h, c, Finish));
  }

  lemma FinishIs(h: State, c: Conn)
    requires Can(c, Finish)
    ensures
      var c' := Acted(h, c, Finish);
      c'.offers == c.offers && c'.control == c.control && !c'.writer.Writing? && c'.written == c.written + [c.writer.frame]
  {
  }

  lemma PreparesOne(c: Conn, c': Conn, x: Ctl)
    requires c'.offers == c.offers + [x] && c'.control == c.control && c'.writer == c.writer && c'.written == c.written
    ensures Controls(c') == Controls(c) + multiset{x}
  {
  }

  lemma MovesNone(c: Conn, c': Conn)
    requires c'.offers == c.offers && c'.control == c.control && InHand(c'.writer) == InHand(c.writer) && c'.written == c.written
    ensures Controls(c') == Controls(c)
  {
  }

  lemma DismissalPrepares(c: Conn, c0: Conn, code: nat)
    requires c0.offers == c.offers && c0.control == c.control && c0.writer == c.writer && c0.written == c.written
    requires c0.done == c.done
    ensures Controls(Dismissed(c0, code)) == Controls(c) + Goodbye(c, code)
  {
    if c.done {
      MovesNone(c, c0);
    } else {
      PreparesOne(c, Dismissed(c0, code), Close(code));
    }
  }

  lemma HearBalances(h: State, c: Conn, heard: Heard)
    requires Can(c, Hear(heard))
    ensures Balanced(h, c, Hear(heard))
  {
    HearConserves(c, heard);
  }

  lemma FarewellBalances(h: State, c: Conn)
    ensures Balanced(h, c, Farewell)
  {
    DismissalPrepares(c, c, 1001);
  }

  lemma HearConserves(c: Conn, heard: Heard)
    ensures Controls(Heeded(c, heard)) == Controls(c) + Answers(c, heard)
  {
    match heard
    case HungUp => MovesNone(c, TornDown(c.(reading := false)));
    case Malformed(code) => DismissalPrepares(c, c.(reading := false), code);
    case SaidClose => DismissalPrepares(c, c.(reading := false), 1000);
    case Pinged(p) => PreparesOne(c, c.(offers := c.offers + [Pong(p)]), Pong(p));
    case Chatter =>
  }

  lemma DeliverConserves(h: State, c: Conn, b: nat)
    requires b < |h.sent|
    ensures Balanced(h, c, Deliver(b))
  {
    if |c.send| < h.buffer {
      MovesNone(c, Acted(h, c, Deliver(b)));
    } else {
      DismissalPrepares(c, c, 1013);
    }
  }

  lemma FailConserves(h: State, c: Conn)
    requires Can(c, Fail)
    ensures Balanced(h, c, Fail)
  {
  }

  lemma StopConserves(h: State, c: Conn, act: Act)
    requires Can(c, act) && (act.TakeData? || act.Push? || act.SeeDone? || act.Expire? || act.Leave?)
    ensures Balanced(h, c, act)
  {
    MovesNone(c, Acted(h, c, act));
  }

  /** Control frames are neither made up nor forgotten: an act prepares what it should, loses what it
      must, and moves the others on. */
  lemma ControlsConserved(h: State, c: Conn, act: Act)
    requires Can(c, act) && (act.Deliver? ==> act.broadcast < |h.sent|)
    ensures Balanced(h, c, act)
  {
    match act
    case Land(i) => LandConserves(h, c, i);
    case TakeControl => TakeConserves(h, c);
    case Finish => FinishConserves(h, c);
    case Hear(heard) => HearBalances(h, c, heard);
    case Deliver(b) => DeliverConserves(h, c, b);
    case Farewell => FarewellBalances(h, c);
    case Fail => FailConserves(h, c);
    case TakeData => StopConserves(h, c, act);
    case Push(_) => StopConserves(h, c, act);
    case SeeDone => StopConserves(h, c, act);
    case Expire => StopConserves(h, c, act);
    case Leave => StopConserves(h, c, act);
  }

  function PreparedIn(h: State, steps: seq<Step>, id: Id): multiset<Ctl>
    decreases |steps|
  {
    if steps == [] || !Enabled(h, steps[0]) then multiset{}
    else
      (if steps[0].At? && steps[0].id == id && id in h.conns then Prepared(h, h.conns[id], steps[0].act) else multiset{})
      + PreparedIn(Next(h, steps[0]), steps[1..], id)
  }

  lemma StepConserves(h: State, s: Step, id: Id)
    requires Enabled(h, s) && id in h.conns
    ensures id in Next(h, s).conns
    ensures Controls(Next(h, s).conns[id])
            <= Controls(h.conns[id]) + if s.At? && s.id == id then Prepared(h, h.conns[id], s.act) else multiset{}
  {
    if s.At? && s.id == id {
      ControlsConserved(h, h.conns[id], s.act);
    }
  }

  /** Over every run no control frame is written more often than it was prepared: a Pong answers a Ping of
      its own, and a goodbye has its reason. */
  lemma {:induction false} NoneMadeUp(h: State, steps: seq<Step>, h': State, id: Id)
    requires Run(h, steps, h') && id in h.conns
    ensures id in h'.conns
    ensures Sent(h'.conns[id].written) <= Controls(h'.conns[id]) <= Controls(h.conns[id]) + PreparedIn(h, steps, id)
    decreases |steps|
  {
    if steps != [] {
      StepConserves(h, steps[0], id);
      NoneMadeUp(Next(h, steps[0]), steps[1..], h', id);
    }
  }

  // ---- The writer -------------------------------------------------------------------

  /** The writer takes a frame, writes all its bytes and is done with it. */
  function WholeWrite(take: Act, frame: Outgoing, id: Id): seq<Step> {
    [At(id, take)] + ([At(id, Push(|Encoded(frame)|))] + ([At(id, Finish)] + []))
  }

  lemma RunCons(h: State, s: Step, steps: seq<Step>, h': State)
    requires Enabled(h, s) && Run(Next(h, s), steps, h')
    ensures Run(h, [s] + steps, h')
  {
    assert ([s] + steps)[1..] == steps;
  }

  lemma WritesWhole(h: State, id: Id, take: Act, frame: Outgoing) returns (h': State)
    requires id in h.conns && Can(h.conns[id], take)
    requires (take.TakeControl? && frame == Control(h.conns[id].control[0])) || (take.TakeData? && frame == Data(h.conns[id].send[0]))
    ensures Run(h, WholeWrite(take, frame, id), h') && id in h'.conns
    ensures h'.conns[id].written == h.conns[id].written + [frame]
  {
    var h1 := Next(h, At(id, take));
    var h2 := Next(h1, At(id, Push(|Encoded(frame)|)));
    h' := Next(h2, At(id, Finish));
    assert Run(h', [], h');
    RunCons(h2, At(id, Finish), [], h');
    RunCons(h1, At(id, Push(|Encoded(frame)|)), [At(id, Finish)] + [], h');
    RunCons(h, At(id, take), [At(id, Push(|Encoded(frame)|))] + ([At(id, Finish)] + []), h');
  }

  /** Neither queue is ever stuck behind the other: a waiting writer can write the first frame of either
      whole. */
  lemma NeverStuck(h: State, id: Id, take: Act) returns (frame: Outgoing, h': State)
    requires id in h.conns && h.conns[id].writer.Waiting?
    requires (take.TakeControl? && h.conns[id].control != []) || (take.TakeData? && h.conns[id].send != [])
    ensures frame == if take.TakeControl? then Control(h.conns[id].control[0]) else Data(h.conns[id].send[0])
    ensures Run(h, WholeWrite(take, frame, id), h') && id in h'.conns
    ensures h'.conns[id].written == h.conns[id].written + [frame]
  {
    frame := if take.TakeControl? then Control(h.conns[id].control[0]) else Data(h.conns[id].send[0]);
    h' := WritesWhole(h, id, take, frame);
  }
}
