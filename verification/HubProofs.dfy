/** What happens at the hub over every interleaving, overlapping broadcasts included:

      - where the messages of one connection are, and that no act but a delivery and the end of its
        writer changes them;
      - the bytes on its socket, which are whole frames and at most part of one more;
      - what a peer makes of those bytes, by the RFC;
      - what each connection is still owed, which it is handed at most once;
      - the bounds on its queues.

    The order in which one connection is handed its messages is the subject of HubDelivery. */
module HubProofs {
  import opened Wrappers
  import opened Frames
  import opened FrameProofs
  import opened Hub

  // ---- The data each connection is handed -------------------------------------------

  function PayloadOf(o: Outgoing): seq<seq<Byte>> {
    if o.Data? then [o.payload] else []
  }

  function Payloads(os: seq<Outgoing>): seq<seq<Byte>> {
    if os == [] then [] else Payloads(os[..|os| - 1]) + PayloadOf(os[|os| - 1])
  }

  /** The messages written whole. */
  function Delivered(c: Conn): seq<seq<Byte>> {
    Payloads(c.written)
  }

  /** Those, the one being written, and the ones queued. */
  function Handed(c: Conn): seq<seq<Byte>> {
    Delivered(c) + (if c.writer.Writing? then PayloadOf(c.writer.frame) else []) + c.send
  }

  /** The act hands the connection one more message. */
  predicate Hands(h: State, c: Conn, act: Act) {
    act.Deliver? && |c.send| < h.buffer
  }

  lemma PayloadsAppend(os: seq<Outgoing>, o: Outgoing)
    ensures Payloads(os + [o]) == Payloads(os) + PayloadOf(o)
  {
    assert (os + [o])[..|os|] == os;
  }

  lemma NilBetween<T>(a: seq<T>, b: seq<T>)
    ensures a + [] + b == a + b
  {
  }

  /** The three places a message can be, and the moves between them. */
  lemma FinishKeepsMessages(c: Conn)
    requires c.writer.Writing?
    ensures Delivered(Finished(c)) == Delivered(c) + PayloadOf(c.writer.frame)
    ensures !Finished(c).writer.Stopped? ==> Handed(Finished(c)) == Handed(c)
  {
    PayloadsAppend(c.written, c.writer.frame);
    NilBetween(Delivered(c) + PayloadOf(c.writer.frame), c.send);
  }

  lemma TakeDataKeepsMessages(c: Conn)
    requires c.writer.Waiting? && c.send != []
    ensures Handed(c.(writer := Writing(Data(c.send[0]), 0), send := c.send[1..])) == Handed(c)
  {
    var d := Delivered(c);
    NilBetween(d, c.send);
    assert c.send == [c.send[0]] + c.send[1..];
    Associates(d, [c.send[0]], c.send[1..]);
  }

  lemma EnqueueAppendsMessage(c: Conn, payload: seq<Byte>)
    ensures Handed(c.(send := c.send + [payload])) == Handed(c) + [payload]
  {
    var d := Delivered(c) + (if c.writer.Writing? then PayloadOf(c.writer.frame) else []);
    Associates(d, c.send, [payload]);
  }

  /** Acts that move no message. */
  lemma OtherActs(h: State, c: Conn, act: Act)
    requires Can(c, act) && !Hands(h, c, act) && !act.Finish? && !act.TakeData?
    requires act.Deliver? ==> act.broadcast < |h.sent|
    ensures Acted(h, c, act).written == c.written && Acted(h, c, act).send == c.send && Acted(h, c, act).since == c.since
    ensures c.writer.Stopped? ==> Acted(h, c, act).writer.Stopped?
    ensures !Acted(h, c, act).writer.Stopped? ==> Handed(Acted(h, c, act)) == Handed(c)
  {
  }

  /** No act loses, adds or reorders a message, except a delivery, which appends its own, and
      the end of the writer, which drops what it had not written. */
  lemma ActKeepsMessages(h: State, c: Conn, act: Act)
    requires Can(c, act) && (act.Deliver? ==> act.broadcast < |h.sent|)
    ensures Acted(h, c, act).since == c.since
    ensures c.writer.Stopped? ==> Acted(h, c, act).writer.Stopped? && Acted(h, c, act).written == c.written
    ensures !Acted(h, c, act).writer.Stopped? ==>
              Handed(Acted(h, c, act)) == Handed(c) + if Hands(h, c, act) then [h.sent[act.broadcast]] else []
    ensures !c.writer.Stopped? ==> Delivered(Acted(h, c, act)) <= Handed(c)
  {
    if act.Finish? {
      FinishKeepsMessages(c);
    } else if act.TakeData? {
      TakeDataKeepsMessages(c);
    } else if Hands(h, c, act) {
      EnqueueAppendsMessage(c, h.sent[act.broadcast]);
    } else {
      OtherActs(h, c, act);
    }
  }

  // ---- The bytes on the wire --------------------------------------------------------

  function Join(es: seq<seq<Byte>>): seq<Byte> {
    if es == [] then [] else Join(es[..|es| - 1]) + es[|es| - 1]
  }

  function Framed(os: seq<Outgoing>): (es: seq<seq<Byte>>)
    ensures |es| == |os|
  {
    seq(|os|, i requires 0 <= i < |os| => Encoded(os[i]))
  }

  function Stream(os: seq<Outgoing>): seq<Byte> {
    Join(Framed(os))
  }

  /** What has been written of a frame that is not whole. */
  function Partial(w: Writer): seq<Byte>
    requires w.Writing? ==> w.sent <= |Encoded(w.frame)|
  {
    match w
    case Waiting => []
    case Writing(o, n) => Encoded(o)[..n]
    case Stopped(p) => p
  }

  /** Whole frames with nothing between them, then at most part of one more; a Close, if there
      is one, is the last frame, and after it not one byte. */
  ghost predicate WellWritten(c: Conn) {
    && (c.writer.Writing? ==> c.writer.sent <= |Encoded(c.writer.frame)|)
    && (c.writer.Stopped? && c.writer.partial != [] ==>
          exists o :: Sendable(o) && |c.writer.partial| < |Encoded(o)| && c.writer.partial == Encoded(o)[..|c.writer.partial|])
    && (forall i | 0 <= i < |c.written| :: IsClose(c.written[i]) ==> i == |c.written| - 1 && c.writer == Stopped([]))
  }

  /** Everything queued, in hand or written is short enough to be framed. */
  ghost predicate AllSendable(c: Conn) {
    && (forall p | p in c.send :: Sendable(Data(p)))
    && (c.writer.Writing? ==> Sendable(c.writer.frame))
    && (forall o | o in c.written :: Sendable(o))
  }

  function WireBytes(c: Conn): seq<Byte>
    requires WellWritten(c)
  {
    Stream(c.written) + Partial(c.writer)
  }

  lemma JoinAppend(es: seq<seq<Byte>>, e: seq<Byte>)
    ensures Join(es + [e]) == Join(es) + e
  {
    assert (es + [e])[..|es|] == es;
  }

  lemma StreamAppend(os: seq<Outgoing>, o: Outgoing)
    ensures Stream(os + [o]) == Stream(os) + Encoded(o)
  {
    assert Framed(os + [o]) == Framed(os) + [Encoded(o)];
    JoinAppend(Framed(os), Encoded(o));
  }

  lemma AllOfIt<T>(a: seq<T>, e: seq<T>)
    ensures (a + e) + [] == a + e[..|e|]
  {
    assert e[..|e|] == e;
  }

  lemma FinishWritesWell(c: Conn)
    requires WellWritten(c) && Can(c, Finish)
    ensures WellWritten(Finished(c)) && WireBytes(Finished(c)) == WireBytes(c)
  {
    var o := c.writer.frame;
    StreamAppend(c.written, o);
    AllOfIt(Stream(c.written), Encoded(o));
  }

  lemma FailWritesWell(h: State, c: Conn)
    requires WellWritten(c) && AllSendable(c) && Can(c, Fail)
    ensures WellWritten(Acted(h, c, Fail)) && WireBytes(Acted(h, c, Fail)) == WireBytes(c)
  {
    var o, n := c.writer.frame, c.writer.sent;
    assert Sendable(o) && n < |Encoded(o)| && Acted(h, c, Fail).writer.partial == Encoded(o)[..n];
  }

  lemma GrowsAtTheEnd<T>(a: seq<T>, p: seq<T>, q: seq<T>)
    requires p <= q
    ensures a + p <= a + q
  {
  }

  lemma OtherActsWrite(h: State, c: Conn, act: Act)
    requires WellWritten(c) && Can(c, act) && (act.Deliver? ==> act.broadcast < |h.sent|)
    requires !act.Finish? && !act.Fail?
    ensures Acted(h, c, act).written == c.written && WellWritten(Acted(h, c, act))
    ensures Partial(c.writer) <= Partial(Acted(h, c, act).writer)
  {
  }

  lemma ActWritesWell(h: State, c: Conn, act: Act)
    requires WellWritten(c) && AllSendable(c) && Can(c, act) && (act.Deliver? ==> act.broadcast < |h.sent|)
    ensures WellWritten(Acted(h, c, act)) && WireBytes(c) <= WireBytes(Acted(h, c, act))
  {
    if act.Finish? {
      FinishWritesWell(c);
    } else if act.Fail? {
      FailWritesWell(h, c);
    } else {
      OtherActsWrite(h, c, act);
      GrowsAtTheEnd(Stream(c.written), Partial(c.writer), Partial(Acted(h, c, act).writer));
    }
  }

  lemma ActKeepsSendable(h: State, c: Conn, act: Act)
    requires AllSendable(c) && Can(c, act) && (act.Deliver? ==> act.broadcast < |h.sent| && Sendable(Data(h.sent[act.broadcast])))
    ensures AllSendable(Acted(h, c, act))
  {
    if act.Deliver? {
      assert forall p :: p in c.send + [h.sent[act.broadcast]] <==> p in c.send || p == h.sent[act.broadcast];
    }
    if act.TakeData? {
      assert c.send[0] in c.send;
    }
  }

  ghost predicate Sound(c: Conn) {
    WellWritten(c) && AllSendable(c)
  }

  ghost predicate AllSound(h: State) {
    && |h.todo| == |h.sent|
    && (forall p | p in h.sent :: Sendable(Data(p)))
    && (forall id | id in h.conns :: Sound(h.conns[id]))
  }

  lemma ActKeepsSound(h: State, c: Conn, act: Act)
    requires Sound(c) && Can(c, act)
    requires act.Deliver? ==> act.broadcast < |h.sent| && Sendable(Data(h.sent[act.broadcast]))
    ensures Sound(Acted(h, c, act)) && WireBytes(c) <= WireBytes(Acted(h, c, act))
  {
    ActWritesWell(h, c, act);
    ActKeepsSendable(h, c, act);
  }

  lemma FreshIsSound(h: State)
    ensures Sound(Registered(h))
  {
  }

  lemma StepKeepsSound(h: State, s: Step)
    requires AllSound(h) && Enabled(h, s)
    ensures AllSound(Next(h, s))
    ensures forall id | id in h.conns :: id in Next(h, s).conns && WireBytes(h.conns[id]) <= WireBytes(Next(h, s).conns[id])
  {
    forall id | id in Next(h, s).conns
      ensures Sound(Next(h, s).conns[id])
      ensures id in h.conns ==> WireBytes(h.conns[id]) <= WireBytes(Next(h, s).conns[id])
    {
      if s.At? && s.id == id {
        if s.act.Register? {
          FreshIsSound(h);
        } else {
          assert Sound(h.conns[id]);
          ActKeepsSound(h, h.conns[id], s.act);
        }
      } else {
        assert Sound(h.conns[id]);
      }
    }
  }

  /** Over every interleaving, overlapping broadcasts included: the bytes written to a socket
      only ever grow, in whole frames and at most one part, and nothing follows a Close. */
  lemma {:induction false} FramesNeverInterleave(h: State, steps: seq<Step>, h': State)
    requires AllSound(h) && Run(h, steps, h')
    ensures AllSound(h')
    ensures forall id | id in h.conns :: id in h'.conns && WireBytes(h.conns[id]) <= WireBytes(h'.conns[id])
    decreases |steps|
  {
    if steps != [] {
      StepKeepsSound(h, steps[0]);
      FramesNeverInterleave(Next(h, steps[0]), steps[1..], h');
    }
  }

  // ---- What the peer decodes --------------------------------------------------------

  function WireOf(o: Outgoing): Wire {
    match o
    case Data(p) => TextWire(p)
    case Control(Close(code)) => Wire(true, 0, 8, None, Seven, Truncated(PutBigEndian(code, 2) + Ascii(Reason(code))))
    case Control(Pong(b)) => Wire(true, 0, 10, None, Seven, Truncated(b))
  }

  lemma EncodedDecodes(o: Outgoing, rest: seq<Byte>)
    requires Sendable(o)
    ensures Decode(Encoded(o) + rest) == Some((WireOf(o), rest))
  {
    match o
    case Data(p) => TextFrameDecodes(p, rest);
    case Control(Close(code)) => ControlFrameDecodes(CLOSE, PutBigEndian(code, 2) + Ascii(Reason(code)), rest);
    case Control(Pong(b)) => ControlFrameDecodes(10, b, rest);
  }

  /** The front n frames of a stream. */
  function DecodeMany(s: seq<Byte>, n: nat): Option<(seq<Wire>, seq<Byte>)>
    decreases n
  {
    if n == 0 then Some(([], s))
    else
      match DecodeMany(s, n - 1)
      case None => None
      case Some(r) =>
        match Decode(r.1)
        case None => None
        case Some(more) => Some((r.0 + [more.0], more.1))
  }

  function WiresOf(os: seq<Outgoing>): (ws: seq<Wire>)
    ensures |ws| == |os| && forall i | 0 <= i < |os| :: ws[i] == WireOf(os[i])
  {
    seq(|os|, i requires 0 <= i < |os| => WireOf(os[i]))
  }

  /** Whatever follows, these bytes are this frame. */
  ghost predicate Reads(e: seq<Byte>, w: Wire) {
    forall rest :: Decode(e + rest) == Some((w, rest))
  }

  lemma EncodedReads(o: Outgoing)
    requires Sendable(o)
    ensures Reads(Encoded(o), WireOf(o))
  {
    forall rest
      ensures Decode(Encoded(o) + rest) == Some((WireOf(o), rest))
    {
      EncodedDecodes(o, rest);
    }
  }

  lemma OneMore(s: seq<Byte>, before: seq<Wire>, more: seq<Byte>, w: Wire, rest: seq<Byte>)
    requires DecodeMany(s, |before|) == Some((before, more)) && Decode(more) == Some((w, rest))
    ensures DecodeMany(s, |before| + 1) == Some((before + [w], rest))
  {
  }

  ghost predicate AllRead(es: seq<seq<Byte>>, ws: seq<Wire>)
    requires |es| == |ws|
  {
    forall i | 0 <= i < |es| :: Reads(es[i], ws[i])
  }

  lemma FrontAndLast<T>(s: seq<T>)
    requires s != []
    ensures s[..|s| - 1] + [s[|s| - 1]] == s
  {
  }

  lemma {:induction false} JoinDecodes(es: seq<seq<Byte>>, ws: seq<Wire>, rest: seq<Byte>)
    requires |es| == |ws| && AllRead(es, ws)
    ensures DecodeMany(Join(es) + rest, |es|) == Some((ws, rest))
    decreases |es|
  {
    if es == [] {
      assert Join(es) + rest == rest;
    } else {
      var n := |es| - 1;
      var s := Join(es) + rest;
      assert s == Join(es[..n]) + (es[n] + rest) by {
        Associates(Join(es[..n]), es[n], rest);
      }
      JoinDecodes(es[..n], ws[..n], es[n] + rest);
      OneMore(s, ws[..n], es[n] + rest, ws[n], rest);
      FrontAndLast(ws);
    }
  }

  lemma FramedRead(os: seq<Outgoing>)
    requires forall o | o in os :: Sendable(o)
    ensures AllRead(Framed(os), WiresOf(os))
  {
    forall i | 0 <= i < |os|
      ensures Reads(Framed(os)[i], WiresOf(os)[i])
    {
      EncodedReads(os[i]);
    }
  }

  lemma StreamDecodes(os: seq<Outgoing>, rest: seq<Byte>)
    requires forall o | o in os :: Sendable(o)
    ensures DecodeMany(Stream(os) + rest, |os|) == Some((WiresOf(os), rest))
  {
    FramedRead(os);
    JoinDecodes(Framed(os), WiresOf(os), rest);
  }

  /** More bytes never change a frame already there. */
  lemma DecodeExtends(s: seq<Byte>, n: nat)
    requires n <= |s| && Decode(s[..n]).Some?
    ensures Decode(s) == Some((Decode(s[..n]).value.0, Decode(s[..n]).value.1 + s[n..]))
  {
    var (w, r) := Decode(s[..n]).value;
    WrittenIfDecodes(s[..n], w, r);
    Associates(Bytes(w), r, s[n..]);
    assert s == s[..n] + s[n..];
    DecodesWhatWritten(w, r + s[n..]);
  }

  /** Part of a frame decodes to nothing: no truncation is ever mistaken for a message. */
  lemma PartDecodesToNothing(o: Outgoing, n: nat)
    requires Sendable(o) && n < |Encoded(o)|
    ensures Decode(Encoded(o)[..n]) == None
  {
    EncodedDecodes(o, []);
    assert Encoded(o) + [] == Encoded(o);
    if Decode(Encoded(o)[..n]).Some? {
      DecodeExtends(Encoded(o), n);
    }
  }

  /** The text messages among some frames. */
  function Texts(ws: seq<Wire>): seq<seq<Byte>> {
    if ws == [] then []
    else Texts(ws[..|ws| - 1]) + if ws[|ws| - 1].opcode == 1 then [ws[|ws| - 1].payload] else []
  }

  lemma {:induction false} TextsAreDelivered(os: seq<Outgoing>)
    ensures Texts(WiresOf(os)) == Payloads(os)
    decreases |os|
  {
    if os != [] {
      var n := |os| - 1;
      TextsAreDelivered(os[..n]);
      assert WiresOf(os)[..n] == WiresOf(os[..n]);
    }
  }

  /** The frames whose last byte is out. */
  function Whole(c: Conn): seq<Outgoing> {
    if c.writer.Writing? && c.writer.sent == |Encoded(c.writer.frame)| then c.written + [c.writer.frame] else c.written
  }

  /** The bytes after them. */
  function Tail(c: Conn): seq<Byte>
    requires WellWritten(c)
  {
    if c.writer.Writing? && c.writer.sent == |Encoded(c.writer.frame)| then [] else Partial(c.writer)
  }

  lemma TailDecodesToNothing(c: Conn)
    requires WellWritten(c) && AllSendable(c)
    ensures WireBytes(c) == Stream(Whole(c)) + Tail(c) && Decode(Tail(c)) == None
  {
    match c.writer
    case Waiting =>
    case Writing(o, n) =>
      if n < |Encoded(o)| {
        PartDecodesToNothing(o, n);
      } else {
        StreamAppend(c.written, o);
        assert Encoded(o)[..n] == Encoded(o);
        assert Stream(Whole(c)) + [] == Stream(Whole(c));
      }
    case Stopped(p) =>
      if p != [] {
        var o :| Sendable(o) && |p| < |Encoded(o)| && p == Encoded(o)[..|p|];
        PartDecodesToNothing(o, |p|);
      }
  }

  lemma WholeSendable(c: Conn)
    requires AllSendable(c)
    ensures forall o | o in Whole(c) :: Sendable(o)
  {
  }

  // ---- Overlapping broadcasts -------------------------------------------------------

  /** The messages a connection is still to be handed, by the broadcasts that have begun. */
  ghost function Owed(sent: seq<seq<Byte>>, todo: seq<set<Id>>, id: Id): multiset<seq<Byte>>
    requires |sent| == |todo|
  {
    if sent == [] then multiset{}
    else
      var n := |sent| - 1;
      Owed(sent[..n], todo[..n], id) + if id in todo[n] then multiset{sent[n]} else multiset{}
  }

  /** The messages a connection has, or had when its writer stopped. */
  function Held(c: Conn): seq<seq<Byte>> {
    if c.writer.Stopped? then Delivered(c) else Handed(c)
  }

  /** Nobody is owed or handed a message twice, nor one from before it registered. */
  ghost predicate Once(h: State, id: Id)
    requires id in h.conns && |h.todo| == |h.sent|
  {
    && h.conns[id].since <= |h.sent|
    && multiset(Held(h.conns[id])) + Owed(h.sent, h.todo, id) <= multiset(h.sent[h.conns[id].since..])
  }

  /** Whoever is registered or awaited has a connection. */
  ghost predicate Named(h: State) {
    && |h.todo| == |h.sent|
    && h.live <= h.conns.Keys
    && (forall b | 0 <= b < |h.todo| :: h.todo[b] <= h.conns.Keys)
  }

  ghost predicate AllOnce(h: State) {
    Named(h) && forall id | id in h.conns :: Once(h, id)
  }

  lemma {:induction false} OwedNothing(sent: seq<seq<Byte>>, todo: seq<set<Id>>, id: Id)
    requires |sent| == |todo| && forall b | 0 <= b < |todo| :: id !in todo[b]
    ensures Owed(sent, todo, id) == multiset{}
  {
    if sent != [] {
      OwedNothing(sent[..|sent| - 1], todo[..|sent| - 1], id);
    }
  }

  function Struck(todo: seq<set<Id>>, b: nat, id: Id): seq<set<Id>>
    requires b < |todo|
  {
    todo[b := todo[b] - {id}]
  }

  /** Striking one name off one broadcast costs it that message, and nobody else anything. */
  lemma {:induction false} OwedLess(sent: seq<seq<Byte>>, todo: seq<set<Id>>, b: nat, id: Id)
    requires |sent| == |todo| && b < |todo| && id in todo[b]
    ensures Owed(sent, Struck(todo, b, id), id) + multiset{sent[b]} == Owed(sent, todo, id)
  {
    var n := |sent| - 1;
    if b < n {
      OwedLess(sent[..n], todo[..n], b, id);
    }
  }

  lemma {:induction false} OwedSame(sent: seq<seq<Byte>>, todo: seq<set<Id>>, b: nat, id: Id, other: Id)
    requires |sent| == |todo| && b < |todo| && other != id
    ensures Owed(sent, Struck(todo, b, id), other) == Owed(sent, todo, other)
  {
    var n := |sent| - 1;
    if b < n {
      OwedSame(sent[..n], todo[..n], b, id, other);
    }
  }

  lemma OwedMore(sent: seq<seq<Byte>>, todo: seq<set<Id>>, payload: seq<Byte>, live: set<Id>, id: Id)
    requires |sent| == |todo|
    ensures Owed(sent + [payload], todo + [live], id)
            == Owed(sent, todo, id) + if id in live then multiset{payload} else multiset{}
  {
    assert (sent + [payload])[..|sent|] == sent && (todo + [live])[..|sent|] == todo;
  }

  lemma SuffixBag(sent: seq<seq<Byte>>, payload: seq<Byte>, since: nat)
    requires since <= |sent|
    ensures multiset((sent + [payload])[since..]) == multiset(sent[since..]) + multiset{payload}
  {
    assert (sent + [payload])[since..] == sent[since..] + [payload];
  }

  lemma BeginOnce(h: State, payload: seq<Byte>, id: Id)
    requires |h.todo| == |h.sent| && id in h.conns && Once(h, id) && Enabled(h, Begin(payload))
    ensures Once(Next(h, Begin(payload)), id)
  {
    OwedMore(h.sent, h.todo, payload, h.live, id);
    SuffixBag(h.sent, payload, h.conns[id].since);
  }

  lemma HeldAfter(h: State, c: Conn, act: Act)
    requires Can(c, act) && (act.Deliver? ==> act.broadcast < |h.sent|)
    ensures Acted(h, c, act).since == c.since
    ensures multiset(Held(Acted(h, c, act)))
            <= multiset(Held(c)) + if act.Deliver? then multiset{h.sent[act.broadcast]} else multiset{}
  {
    var c' := Acted(h, c, act);
    ActKeepsMessages(h, c, act);
    if !c.writer.Stopped? && c'.writer.Stopped? {
      PrefixBag(Delivered(c'), Handed(c));
    }
  }

  lemma PrefixBag<T>(a: seq<T>, b: seq<T>)
    requires a <= b
    ensures multiset(a) <= multiset(b)
  {
    assert b == a + b[|a|..];
  }

  lemma ActOnceIt(h: State, id: Id, act: Act)
    requires |h.todo| == |h.sent| && id in h.conns && Once(h, id)
    requires !act.Register? && Enabled(h, At(id, act))
    ensures Once(Next(h, At(id, act)), id)
  {
    HeldAfter(h, h.conns[id], act);
    if act.Deliver? {
      assert Next(h, At(id, act)).todo == Struck(h.todo, act.broadcast, id);
      OwedLess(h.sent, h.todo, act.broadcast, id);
    }
  }

  lemma ActOnceOthers(h: State, id: Id, act: Act, j: Id)
    requires |h.todo| == |h.sent| && j in h.conns && Once(h, j) && j != id
    requires !act.Register? && Enabled(h, At(id, act))
    ensures Once(Next(h, At(id, act)), j)
  {
    if act.Deliver? {
      assert Next(h, At(id, act)).todo == Struck(h.todo, act.broadcast, id);
      OwedSame(h.sent, h.todo, act.broadcast, id, j);
    }
  }

  lemma RegisterOnce(h: State, id: Id)
    requires AllOnce(h) && id !in h.conns
    ensures AllOnce(Next(h, At(id, Register)))
  {
    var h' := Next(h, At(id, Register));
    OwedNothing(h.sent, h.todo, id);
    assert Held(h'.conns[id]) == [];
    forall j | j in h'.conns
      ensures Once(h', j)
    {
      if j != id {
        assert Once(h, j);
      }
    }
  }

  lemma StepKeepsNames(h: State, s: Step)
    requires Named(h) && Enabled(h, s)
    ensures Named(Next(h, s))
  {
  }

  lemma StepOnceFor(h: State, s: Step, j: Id)
    requires |h.todo| == |h.sent| && j in h.conns && Once(h, j) && Enabled(h, s) && !(s.At? && s.act.Register?)
    ensures j in Next(h, s).conns && |Next(h, s).todo| == |Next(h, s).sent| && Once(Next(h, s), j)
  {
    match s
    case Begin(p) => BeginOnce(h, p, j);
    case Shutdown =>
    case At(id, act) =>
      if j == id {
        ActOnceIt(h, id, act);
      } else {
        ActOnceOthers(h, id, act, j);
      }
  }

  lemma StepOnce(h: State, s: Step)
    requires AllOnce(h) && Enabled(h, s)
    ensures AllOnce(Next(h, s))
  {
    if s.At? && s.act.Register? {
      RegisterOnce(h, s.id);
    } else {
      StepKeepsNames(h, s);
      forall j | j in Next(h, s).conns
        ensures Once(Next(h, s), j)
      {
        StepOnceFor(h, s, j);
      }
    }
  }

  lemma {:induction false} RunOnce(h: State, steps: seq<Step>, h': State)
    requires AllOnce(h) && Run(h, steps, h')
    ensures AllOnce(h')
    decreases |steps|
  {
    if steps != [] {
      StepOnce(h, steps[0]);
      RunOnce(Next(h, steps[0]), steps[1..], h');
    }
  }

  /** However broadcasts overlap, no connection is ever sent a broadcast twice, or one that began
      before it registered. */
  lemma AtMostOnce(h: State, steps: seq<Step>, h': State, id: Id)
    requires Initial(h) && Run(h, steps, h') && id in h'.conns
    ensures h'.conns[id].since <= |h'.sent|
    ensures multiset(Delivered(h'.conns[id])) <= multiset(h'.sent[h'.conns[id].since..])
  {
    RunOnce(h, steps, h');
    assert Once(h', id);
    if !h'.conns[id].writer.Stopped? {
      var c := h'.conns[id];
      PrefixBag(Delivered(c), Delivered(c) + (if c.writer.Writing? then PayloadOf(c.writer.frame) else []));
      PrefixBag(Delivered(c) + (if c.writer.Writing? then PayloadOf(c.writer.frame) else []), Handed(c));
    }
  }

  // ---- Memory -----------------------------------------------------------------------

  ghost predicate Bounded(h: State) {
    forall id | id in h.conns :: |h.conns[id].send| <= h.buffer && |h.conns[id].control| <= 4
  }

  lemma ActStaysBounded(h: State, c: Conn, act: Act)
    requires Can(c, act) && (act.Deliver? ==> act.broadcast < |h.sent|)
    requires |c.send| <= h.buffer && |c.control| <= 4
    ensures |Acted(h, c, act).send| <= h.buffer && |Acted(h, c, act).control| <= 4
  {
  }

  lemma StepStaysBounded(h: State, s: Step)
    requires Bounded(h) && Enabled(h, s)
    ensures Bounded(Next(h, s)) && Next(h, s).buffer == h.buffer
  {
    if s.At? && !s.act.Register? {
      ActStaysBounded(h, h.conns[s.id], s.act);
    }
  }

  /** A client that does not read costs its two buffers and no more, over every run. */
  lemma {:induction false} QueuesBounded(h: State, steps: seq<Step>, h': State)
    requires Bounded(h) && Run(h, steps, h')
    ensures Bounded(h') && h'.buffer == h.buffer
    decreases |steps|
  {
    if steps != [] {
      StepStaysBounded(h, steps[0]);
      QueuesBounded(Next(h, steps[0]), steps[1..], h');
    }
  }
}
