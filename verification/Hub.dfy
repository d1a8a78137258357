/** The broadcast hub (internal/wshub/wshub.go).  Every goroutine's critical section or channel
    operation is one step; a write to the socket may stop at any byte. */
module Hub {
  import opened Frames

  /** A control frame on its way to a writer; a Close by its code. */
  datatype Ctl = Close(code: nat) | Pong(body: seq<Byte>)

  datatype Outgoing = Data(payload: seq<Byte>) | Control(ctl: Ctl)

  const CLOSE_NORMAL := 1000
  const GOING_AWAY := 1001
  const PROTOCOL_ERROR := 1002
  const TOO_BIG := 1009
  const TRY_AGAIN_LATER := 1013

  function Ascii(s: string): seq<Byte> {
    seq(|s|, i requires 0 <= i < |s| => (s[i] as int) % 256)
  }

  function Reason(code: nat): string {
    if code == GOING_AWAY then "server shutting down"
    else if code == PROTOCOL_ERROR then "malformed frame"
    else if code == TOO_BIG then "frame too large"
    else if code == TRY_AGAIN_LATER then "client too slow"
    else ""
  }

  /** The finished frame. */
  function Encoded(o: Outgoing): (s: seq<Byte>)
    ensures |s| >= 2
  {
    match o
    case Data(p) => TextFrame(p)
    case Control(Close(code)) => CloseFrame(code, Ascii(Reason(code)))
    case Control(Pong(b)) => ControlFrame(10, b)
  }

  /** A Go slice is shorter than 2^63. */
  predicate Sendable(o: Outgoing) {
    o.Data? ==> |o.payload| < 0x8000_0000_0000_0000
  }

  predicate IsClose(o: Outgoing) {
    o.Control? && o.ctl.Close?
  }

  /** The writer's own test, on the first byte of the finished frame, finds exactly the Closes. */
  lemma CloseTest(o: Outgoing)
    ensures Encoded(o)[0] % 16 == CLOSE <==> IsClose(o)
  {
    match o
    case Data(p) => assert Encoded(o)[0] == FIN + TEXT;
    case Control(Close(code)) => assert Encoded(o)[0] == FIN + CLOSE;
    case Control(Pong(b)) => assert Encoded(o)[0] == FIN + 10;
  }

  /** The writer goroutine: waiting, inside a write, or gone, with what it left half-written. */
  datatype Writer = Waiting | Writing(frame: Outgoing, sent: nat) | Stopped(partial: seq<Byte>)

  /** One socket.  `since` is how many broadcasts had begun when it registered, `offers` the
      control frames some goroutine is about to hand over, `written` the whole frames sent. */
  datatype Conn = Conn(
    since: nat,
    send: seq<seq<Byte>>,
    control: seq<Ctl>,
    offers: seq<Ctl>,
    done: bool,
    closing: bool,
    reading: bool,
    writer: Writer,
    written: seq<Outgoing>)

  const CONTROL_BUFFER := 4
  // ---- What is done to one connection -----------------------------------------------

  function Fresh(since: nat): Conn {
    Conn(since, [], [], [], false, false, true, Waiting, [])
  }

  /** A send on a buffered channel that never blocks: taken if there is room, else dropped. */
  function Offer<T>(channel: seq<T>, room: nat, x: T): seq<T> {
    if |channel| < room then channel + [x] else channel
  }

  function Enqueued(c: Conn, buffer: nat, payload: seq<Byte>): Conn {
    c.(send := Offer(c.send, buffer, payload))
  }

  function OfferLanded(c: Conn, i: nat): Conn
    requires i < |c.offers|
  {
    c.(offers := c.offers[..i] + c.offers[i + 1..], control := Offer(c.control, CONTROL_BUFFER, c.offers[i]))
  }

  /** close: the socket is gone. */
  function TornDown(c: Conn): Conn {
    c.(done := true)
  }

  /** gracefulClose: say goodbye and start the timer, unless the socket is already gone. */
  function Dismissed(c: Conn, code: nat): Conn {
    if c.done then c else c.(offers := c.offers + [Close(code)], closing := true)
  }

  /** A frame has been written whole; after a Close the writer is finished. */
  function Finished(c: Conn): Conn
    requires c.writer.Writing?
  {
    var c1 := c.(written := c.written + [c.writer.frame]);
    if IsClose(c.writer.frame) then TornDown(c1.(writer := Stopped([]))) else c1.(writer := Waiting)
  }

  /** The connection's channels and flags, as its goroutines share them. */
  class Connection {
    var send: seq<seq<Byte>>
    var control: seq<Ctl>
    var done: bool
    const buffer: nat

    constructor (buffer: nat)
      ensures send == [] && control == [] && !done && this.buffer == buffer
    {
      this.buffer := buffer;
      send, control, done := [], [], false;
    }

    /** False tells the caller to drop this client. */
    method Enqueue(payload: seq<Byte>) returns (ok: bool)
      modifies this`send
      ensures send == Offer(old(send), buffer, payload)
      ensures ok <==> send != old(send)
    {
      if |send| < buffer {
        send := send + [payload];
        return true;
      }
      return false;
    }

    method EnqueueControl(frame: Ctl)
      modifies this`control
      ensures control == Offer(old(control), CONTROL_BUFFER, frame)
    {
      if |control| < CONTROL_BUFFER {
        control := control + [frame];
      }
    }
  }

  // ---- The hub as a state machine ---------------------------------------------------

  type Id = nat

  /** `sent` is every broadcast begun, `todo` what each has yet to hand a frame to. */
  datatype State = State(
    buffer: nat,
    closed: bool,
    live: set<Id>,
    farewell: set<Id>,
    conns: map<Id, Conn>,
    sent: seq<seq<Byte>>,
    todo: seq<set<Id>>)

  /** What a reader goroutine can make of its peer. */
  datatype Heard = HungUp | Malformed(code: nat) | SaidClose | Pinged(payload: seq<Byte>) | Chatter

  /** What the reader makes of one read: a stream that ends is a peer gone, a frame it must not accept ends
      the connection, and of the frames it does accept only a Close and a Ping say anything. */
  function HeardFrom(r: Read): Heard {
    match r
    case Refused(why) =>
      if why.Eof? || why.UnexpectedEof? then HungUp
      else Malformed(if why.PayloadTooLarge? then TOO_BIG else PROTOCOL_ERROR)
    case Got(f, _) =>
      if f.opcode == 8 then SaidClose else if f.opcode == 9 then Pinged(f.payload) else Chatter
  }

  /** What can happen at one connection. */
  datatype Act =
    | Register | Deliver(broadcast: nat) | Farewell | Hear(heard: Heard) | Land(offer: nat) | Expire | Leave
    | TakeControl | TakeData | Push(bytes: nat) | Finish | Fail | SeeDone

  datatype Step = Begin(payload: seq<Byte>) | Shutdown | At(id: Id, act: Act)

  /** An act of an existing connection's own goroutines and timers. */
  predicate Can(c: Conn, act: Act) {
    match act
    case Register => false
    case Deliver(_) => true
    case Farewell => true
    case Hear(heard) => c.reading && (heard.Malformed? ==> heard.code in {PROTOCOL_ERROR, TOO_BIG})
    case Land(i) => i < |c.offers|
    case Expire => c.closing
    case Leave => c.done
    case TakeControl => c.writer.Waiting? && c.control != []
    case TakeData => c.writer.Waiting? && c.send != []
    case Push(n) => c.writer.Writing? && c.writer.sent + n <= |Encoded(c.writer.frame)|
    case Finish => c.writer.Writing? && c.writer.sent == |Encoded(c.writer.frame)|
    case Fail => c.writer.Writing? && c.writer.sent < |Encoded(c.writer.frame)|
    case SeeDone => c.writer.Waiting? && c.done
  }

  predicate Enabled(h: State, s: Step) {
    match s
    case Begin(p) => Sendable(Data(p))
    case Shutdown => !h.closed
    case At(id, act) =>
      if act.Register? then id !in h.conns
      else
        && id in h.conns && Can(h.conns[id], act)
        && (act.Deliver? ==> act.broadcast < |h.todo| == |h.sent| && id in h.todo[act.broadcast])
        && (act.Farewell? ==> id in h.farewell)
  }

  /** The reader's effect on its own connection; all but a ping or chatter end it. */
  function Heeded(c: Conn, heard: Heard): Conn {
    match heard
    case HungUp => TornDown(c.(reading := false))
    case Malformed(code) => Dismissed(c.(reading := false), code)
    case SaidClose => Dismissed(c.(reading := false), CLOSE_NORMAL)
    case Pinged(p) => c.(offers := c.offers + [Pong(p)])
    case Chatter => c
  }

  /** A socket that reaches a hub already shut down is closed and never served. */
  function Registered(h: State): Conn {
    if h.closed then Fresh(|h.sent|).(done := true, reading := false, writer := Stopped([])) else Fresh(|h.sent|)
  }

  /** What an act does to its connection. */
  function Acted(h: State, c: Conn, act: Act): Conn
    requires Can(c, act) && (act.Deliver? ==> act.broadcast < |h.sent|)
  {
    match act
    case Deliver(b) =>
      if |c.send| < h.buffer then Enqueued(c, h.buffer, h.sent[b]) else Dismissed(c, TRY_AGAIN_LATER)
    case Farewell => Dismissed(c, GOING_AWAY)
    case Hear(heard) => Heeded(c, heard)
    case Land(i) => OfferLanded(c, i)
    case Expire => TornDown(c)
    case Leave => c
    case TakeControl => c.(writer := Writing(Control(c.control[0]), 0), control := c.control[1..])
    case TakeData => c.(writer := Writing(Data(c.send[0]), 0), send := c.send[1..])
    case Push(n) => c.(writer := Writing(c.writer.frame, c.writer.sent + n))
    case Finish => Finished(c)
    case Fail => TornDown(c.(writer := Stopped(Encoded(c.writer.frame)[..c.writer.sent])))
    case SeeDone => TornDown(c.(writer := Stopped([])))
  }

  /** Does the act take its connection off the registry? */
  predicate Detaches(h: State, c: Conn, act: Act) {
    match act
    case Deliver(_) => |c.send| >= h.buffer
    case Farewell => true
    case Hear(heard) => heard.Malformed? || heard.SaidClose?
    case Leave => true
    case _ => false
  }

  function Next(h: State, s: Step): State
    requires Enabled(h, s)
  {
    match s
    case Begin(p) =>
      if h.closed || h.live == {} then h else h.(sent := h.sent + [p], todo := h.todo + [h.live])
    case Shutdown => h.(closed := true, farewell := h.live, live := {})
    case At(id, act) =>
      if act.Register? then
        h.(conns := h.conns[id := Registered(h)], live := if h.closed then h.live else h.live + {id})
      else
        var c := h.conns[id];
        h.(conns := h.conns[id := Acted(h, c, act)],
           live := if Detaches(h, c, act) then h.live - {id} else h.live,
           todo := if act.Deliver? then h.todo[act.broadcast := h.todo[act.broadcast] - {id}] else h.todo,
           farewell := if act.Farewell? then h.farewell - {id} else h.farewell)
  }

  predicate Initial(h: State) {
    !h.closed && h.live == {} && h.farewell == {} && h.conns == map[] && h.sent == [] && h.todo == []
  }

  ghost predicate Run(h: State, steps: seq<Step>, h': State)
    decreases |steps|
  {
    if steps == [] then h == h' else Enabled(h, steps[0]) && Run(Next(h, steps[0]), steps[1..], h')
  }

  /** No broadcast begins for a connection while an earlier one has yet to reach it. */
  ghost predicate SerialFor(h: State, steps: seq<Step>, id: Id)
    decreases |steps|
  {
    steps == []
    || (Enabled(h, steps[0])
        && (steps[0].Begin? && id in h.live ==> forall b | 0 <= b < |h.todo| :: id !in h.todo[b])
        && SerialFor(Next(h, steps[0]), steps[1..], id))
  }
}
