module HubReader {
  // What a client's frames do to its connection, from the octets it sends to those it is sent back.

  import opened Wrappers
  import opened Frames
  import opened FrameProofs
  import opened Hub

  /** A frame that is only too long. */
  predicate OnlyTooLong(w: Wire) {
    w.rsv == 0 && w.key.Some? && w.opcode <= 2 && |w.payload| > 0x10_0000
  }

  lemma ReadIs(w: Wire, rest: seq<Byte>)
    requires WellFormed(w)
    ensures Inbound(Bytes(w) + rest)
            == if Fault(w).Some? then Refused(Fault(w).value) else Got(Frame(w.fin, w.opcode, w.payload), rest)
  {
    DecodesWhatWritten(w, rest);
    AcceptsIff(Bytes(w) + rest);
    Split(w, rest);
    FaultIs(w, Key(w) + Body(w) + rest);
  }

  lemma Split(w: Wire, rest: seq<Byte>)
    requires WellFormed(w)
    ensures Bytes(w) + rest == Header(w) + PutBigEndian(|w.payload|, Width(w.form)) + (Key(w) + Body(w) + rest)
  {
  }

  /** Every frame of the format, by its own fields. */
  lemma Hears(w: Wire, rest: seq<Byte>)
    requires WellFormed(w)
    ensures
      var heard := HeardFrom(Inbound(Bytes(w) + rest));
      if Acceptable(w) then heard == if w.opcode == 8 then SaidClose else if w.opcode == 9 then Pinged(w.payload) else Chatter
      else heard == Malformed(if OnlyTooLong(w) then 1009 else 1002)
  {
    ReadIs(w, rest);
    HeardIs(w, rest);
  }

  lemma HeardIs(w: Wire, rest: seq<Byte>)
    requires WellFormed(w)
    ensures Acceptable(w) ==> HeardFrom(Got(Frame(w.fin, w.opcode, w.payload), rest))
                              == if w.opcode == 8 then SaidClose else if w.opcode == 9 then Pinged(w.payload) else Chatter
    ensures !Acceptable(w) ==> Fault(w).Some? && HeardFrom(Refused(Fault(w).value)) == Malformed(if OnlyTooLong(w) then 1009 else 1002)
    ensures Acceptable(w) ==> Fault(w).None?
  {
  }

  /** A stream cut inside an acceptable frame is a peer that hung up. */
  lemma CutIsHangUp(w: Wire, n: nat)
    requires WellFormed(w) && Acceptable(w) && n < |Bytes(w)|
    ensures HeardFrom(Inbound(Bytes(w)[..n])) == HungUp
  {
    CutFrame(w, n);
  }

  /** A Ping is answered with a Pong that any client decodes to the Ping's own payload. */
  lemma PingIsEchoed(c: Conn, w: Wire, rest: seq<Byte>, more: seq<Byte>)
    requires WellFormed(w) && Acceptable(w) && w.opcode == 9
    ensures Heeded(c, HeardFrom(Inbound(Bytes(w) + rest))) == c.(offers := c.offers + [Pong(w.payload)])
    ensures Decode(Encoded(Control(Pong(w.payload))) + more) == Some((Wire(true, 0, 10, None, Seven, w.payload), more))
  {
    Hears(w, rest);
    ControlFrameDecodes(10, w.payload, more);
  }

  /** What a goodbye says on the wire. */
  lemma GoodbyeDecodes(code: nat, reason: string, more: seq<Byte>)
    requires code < 0x1_0000 && Reason(code) == reason && |reason| <= 123
    ensures Decode(Encoded(Control(Close(code))) + more)
            == Some((Wire(true, 0, 8, None, Seven, PutBigEndian(code, 2) + Ascii(reason)), more))
  {
    CloseFrameDecodes(code, Ascii(reason), more);
  }

  /** A goodbye is on its way, once, and nothing more is read. */
  predicate SaysGoodbye(c: Conn, c': Conn, code: nat) {
    c' == if c.done then c.(reading := false)
          else c.(reading := false, offers := c.offers + [Close(code)], closing := true)
  }

  /** A Close is answered with a Close of code 1000; any frame the server must not accept with one of
      code 1002, or of 1009 if it was only too long, each with its reason. */
  lemma GoodbyeIs(c: Conn, w: Wire, rest: seq<Byte>, more: seq<Byte>)
    requires WellFormed(w) && (!Acceptable(w) || w.opcode == 8)
    ensures
      var code, reason :=
        if Acceptable(w) then 1000 else if OnlyTooLong(w) then 1009 else 1002,
        if Acceptable(w) then "" else if OnlyTooLong(w) then "frame too large" else "malformed frame";
      && SaysGoodbye(c, Heeded(c, HeardFrom(Inbound(Bytes(w) + rest))), code)
      && Decode(Encoded(Control(Close(code))) + more)
         == Some((Wire(true, 0, 8, None, Seven, PutBigEndian(code, 2) + Ascii(reason)), more))
  {
    DismissedWith(c, w, rest);
    GoodbyeDecodes(1000, "", more);
    GoodbyeDecodes(1009, "frame too large", more);
    GoodbyeDecodes(1002, "malformed frame", more);
  }

  lemma DismissedWith(c: Conn, w: Wire, rest: seq<Byte>)
    requires WellFormed(w) && (!Acceptable(w) || w.opcode == 8)
    ensures SaysGoodbye(c, Heeded(c, HeardFrom(Inbound(Bytes(w) + rest))),
                        if Acceptable(w) then 1000 else if OnlyTooLong(w) then 1009 else 1002)
  {
    Hears(w, rest);
  }

  /** Anything else a client may say changes nothing, and the next frame is read. */
  lemma ChatterIsIgnored(c: Conn, w: Wire, rest: seq<Byte>)
    requires WellFormed(w) && Acceptable(w) && w.opcode !in {8, 9}
    ensures Heeded(c, HeardFrom(Inbound(Bytes(w) + rest))) == c
    ensures Inbound(Bytes(w) + rest) == Got(Frame(w.fin, w.opcode, w.payload), rest)
  {
    Hears(w, rest);
    ReadIs(w, rest);
  }
}
