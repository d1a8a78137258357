module FrameProofs {
  // The codec against section 5.2 of RFC 6455, written out apart from the server as printer and parser.

  import opened Wrappers
  import opened Bits
  import opened Frames

  // ---- RFC 6455, section 5.2 --------------------------------------------------------

  /** The three ways a length can be written. */
  datatype Form = Seven | Sixteen | SixtyFour

  datatype Wire = Wire(fin: bool, rsv: nat, opcode: nat, key: Option<seq<Byte>>, form: Form, payload: seq<Byte>)

  function Width(form: Form): nat {
    match form
    case Seven => 0
    case Sixteen => 2
    case SixtyFour => 8
  }

  /** A form can hold a length; the 64-bit one has its top bit clear. */
  predicate Fits(form: Form, n: nat) {
    match form
    case Seven => n < 126
    case Sixteen => n < 0x1_0000
    case SixtyFour => n < 0x8000_0000_0000_0000
  }

  predicate WellFormed(w: Wire) {
    w.rsv < 8 && w.opcode < 16 && (w.key.Some? ==> |w.key.value| == 4) && Fits(w.form, |w.payload|)
  }

  function Header(w: Wire): (s: seq<Byte>)
    requires WellFormed(w)
    ensures |s| == 2
  {
    [(if w.fin then 128 else 0) + 16 * w.rsv + w.opcode,
     (if w.key.Some? then 128 else 0)
     + match w.form case Seven => |w.payload| case Sixteen => 126 case SixtyFour => 127]
  }

  function Key(w: Wire): seq<Byte> {
    if w.key.Some? then w.key.value else []
  }

  function Body(w: Wire): (s: seq<Byte>)
    requires WellFormed(w)
    ensures |s| == |w.payload|
  {
    if w.key.Some? then Masked(w.payload, w.key.value) else w.payload
  }

  function Bytes(w: Wire): seq<Byte>
    requires WellFormed(w)
  {
    Header(w) + PutBigEndian(|w.payload|, Width(w.form)) + Key(w) + Body(w)
  }

  function FormOf(short: nat): Form {
    if short == 126 then Sixteen else if short == 127 then SixtyFour else Seven
  }

  /** One frame off the front of a stream, whoever sent it. */
  function Decode(s: seq<Byte>): Option<(Wire, seq<Byte>)> {
    if |s| < 2 then None
    else
      var form := FormOf(s[1] % 128);
      if |s| < 2 + Width(form) then None
      else
        var n := if form == Seven then s[1] % 128 else BigEndian(s[2..2 + Width(form)]);
        if !Fits(form, n) then None
        else DecodeRest(s[0] >= 128, s[0] / 16 % 8, s[0] % 16, s[1] >= 128, form, n, s[2 + Width(form)..])
  }

  function DecodeRest(fin: bool, rsv: nat, opcode: nat, masked: bool, form: Form, n: nat,
                      s: seq<Byte>): Option<(Wire, seq<Byte>)> {
    if masked then
      if |s| < 4 + n then None
      else Some((Wire(fin, rsv, opcode, Some(s[..4]), form, Masked(s[4..4 + n], s[..4])), s[4 + n..]))
    else
      if |s| < n then None
      else Some((Wire(fin, rsv, opcode, None, form, s[..n]), s[n..]))
  }

  // ---- The format round-trips -------------------------------------------------------

  function Pow256(n: nat): nat {
    if n == 0 then 1 else 256 * Pow256(n - 1)
  }

  lemma {:induction false} ReadsWhatPut(n: nat, width: nat)
    requires n < Pow256(width)
    ensures BigEndian(PutBigEndian(n, width)) == n
  {
    if width > 0 {
      ReadsWhatPut(n / 256, width - 1);
      assert PutBigEndian(n, width)[..width - 1] == PutBigEndian(n / 256, width - 1);
    }
  }

  lemma {:induction false} PutsWhatRead(s: seq<Byte>)
    ensures PutBigEndian(BigEndian(s), |s|) == s && BigEndian(s) < Pow256(|s|)
  {
    if s != [] {
      PutsWhatRead(s[..|s| - 1]);
    }
  }

  lemma Widths()
    ensures Pow256(0) == 1 && Pow256(2) == 0x1_0000 && Pow256(8) == 0x1_0000_0000_0000_0000
  {
    assert Pow256(4) == 0x1_0000_0000;
    assert Pow256(6) == 0x1_0000_0000_0000;
  }

  /** Section 5.3: octet i of the masked data is octet i of the original, exclusive-or octet i modulo 4 of
      the key, bit by bit. */
  ghost predicate MaskedBy(plain: seq<Byte>, key: seq<Byte>, masked: seq<Byte>)
    requires |key| == 4
  {
    && |masked| == |plain|
    && forall i: nat, n: nat | i < |plain| && n < 8 ::
         Digit(masked[i], n) == 1 <==> Digit(plain[i], n) != Digit(key[i % 4], n)
  }

  /** The octets masked so are the ones the codec makes, and no others are. */
  lemma MaskIff(plain: seq<Byte>, key: seq<Byte>, masked: seq<Byte>)
    requires |key| == 4
    ensures MaskedBy(plain, key, masked) <==> masked == Masked(plain, key)
  {
    forall i: nat, n: nat | i < |plain| && n < 8
      ensures Digit(XorByte(plain[i], key[i % 4]), n) == 1 <==> Digit(plain[i], n) != Digit(key[i % 4], n)
    {
      XorDigit(plain[i], key[i % 4], n);
    }
    if MaskedBy(plain, key, masked) {
      forall i: nat | i < |plain|
        ensures masked[i] == Masked(plain, key)[i]
      {
        assert Pow2(8) == 256;
        forall n: nat | n < 8
          ensures Digit(masked[i], n) == Digit(XorByte(plain[i], key[i % 4]), n)
        {
        }
        DigitsDecide(masked[i], XorByte(plain[i], key[i % 4]), 8);
      }
    }
  }

  lemma MaskTwice(payload: seq<Byte>, key: seq<Byte>)
    requires |key| == 4
    ensures Masked(Masked(payload, key), key) == payload
  {
    forall i | 0 <= i < |payload|
      ensures Masked(Masked(payload, key), key)[i] == payload[i]
    {
      XorInvolution(payload[i], key[i % 4]);
    }
  }

  /** A number in network byte order: the most significant octet first. */
  function Network(s: seq<Byte>): nat {
    if s == [] then 0 else s[0] * Pow256(|s| - 1) + Network(s[1..])
  }

  lemma Scaled(a: nat, p: nat)
    ensures a * (256 * p) == 256 * (a * p)
  {
  }

  lemma {:induction false} NetworkMore(s: seq<Byte>, b: Byte)
    ensures Network(s + [b]) == 256 * Network(s) + b
    decreases |s|
  {
    if s == [] {
      assert (s + [b])[1..] == [];
    } else {
      assert (s + [b])[1..] == s[1..] + [b];
      NetworkMore(s[1..], b);
      Scaled(s[0], Pow256(|s| - 1));
    }
  }

  lemma {:induction false} NetworkIs(s: seq<Byte>)
    ensures BigEndian(s) == Network(s)
  {
    if s != [] {
      var n := |s| - 1;
      NetworkIs(s[..n]);
      NetworkMore(s[..n], s[n]);
      assert s[..n] + [s[n]] == s;
    }
  }

  /** The octets of the frame: its header, its length where the header has no room for it, its key and its
      payload under the key. */
  ghost predicate MadeOf(w: Wire, length: seq<Byte>, body: seq<Byte>, s: seq<Byte>)
    requires WellFormed(w)
  {
    && |length| == Width(w.form) && (w.form != Seven ==> Network(length) == |w.payload|)
    && (if w.key.Some? then MaskedBy(w.payload, w.key.value, body) else body == w.payload)
    && s == Header(w) + length + Key(w) + body
  }

  ghost predicate IsFrame(w: Wire, s: seq<Byte>)
    requires WellFormed(w)
  {
    exists length, body :: MadeOf(w, length, body, s)
  }

  lemma FrameIff(w: Wire, s: seq<Byte>)
    requires WellFormed(w)
    ensures IsFrame(w, s) <==> s == Bytes(w)
  {
    var length := PutBigEndian(|w.payload|, Width(w.form));
    LengthReads(w);
    NetworkIs(length);
    if w.key.Some? {
      MaskIff(w.payload, w.key.value, Body(w));
    }
    assert Bytes(w) == Header(w) + length + Key(w) + Body(w);
    assert MadeOf(w, length, Body(w), Bytes(w));
    if IsFrame(w, s) {
      var l, body :| MadeOf(w, l, body, s);
      NetworkIs(l);
      PutsWhatRead(l);
      if w.key.Some? {
        MaskIff(w.payload, w.key.value, body);
      }
    }
  }

  lemma HeaderReads(w: Wire)
    requires WellFormed(w)
    ensures
      var h := Header(w);
      && (h[0] >= 128) == w.fin && h[0] / 16 % 8 == w.rsv && h[0] % 16 == w.opcode
      && (h[1] >= 128) == w.key.Some? && FormOf(h[1] % 128) == w.form
      && (w.form == Seven ==> h[1] % 128 == |w.payload|)
  {
  }

  lemma RestReads(w: Wire, rest: seq<Byte>)
    requires WellFormed(w)
    ensures DecodeRest(w.fin, w.rsv, w.opcode, w.key.Some?, w.form, |w.payload|, Key(w) + Body(w) + rest) == Some((w, rest))
  {
    var s, n := Key(w) + Body(w) + rest, |w.payload|;
    if w.key.Some? {
      assert s[..4] == w.key.value && s[4..4 + n] == Body(w) && s[4 + n..] == rest;
      MaskTwice(w.payload, w.key.value);
    } else {
      assert s[..n] == w.payload && s[n..] == rest;
    }
  }

  lemma Parts<T>(a: seq<T>, b: seq<T>, c: seq<T>)
    ensures (a + b + c)[..|a|] == a && (a + b + c)[|a|..|a| + |b|] == b && (a + b + c)[|a| + |b|..] == c
  {
  }

  lemma Slices(w: Wire, rest: seq<Byte>)
    requires WellFormed(w)
    ensures
      var s, width := Bytes(w) + rest, Width(w.form);
      && |s| >= 2 + width && s[0] == Header(w)[0] && s[1] == Header(w)[1]
      && s[2..2 + width] == PutBigEndian(|w.payload|, width)
      && s[2 + width..] == Key(w) + Body(w) + rest
  {
    var h, l, t := Header(w), PutBigEndian(|w.payload|, Width(w.form)), Key(w) + Body(w) + rest;
    assert Bytes(w) + rest == h + l + t;
    Parts(h, l, t);
    assert (h + l + t)[..2] == h;
  }

  lemma LengthReads(w: Wire)
    requires WellFormed(w)
    ensures w.form != Seven ==> BigEndian(PutBigEndian(|w.payload|, Width(w.form))) == |w.payload|
  {
    Widths();
    if w.form != Seven {
      ReadsWhatPut(|w.payload|, Width(w.form));
    }
  }

  /** Every well-formed frame decodes to itself and leaves what follows it. */
  lemma DecodesWhatWritten(w: Wire, rest: seq<Byte>)
    requires WellFormed(w)
    ensures Decode(Bytes(w) + rest) == Some((w, rest))
  {
    Slices(w, rest);
    HeaderReads(w);
    LengthReads(w);
    RestReads(w, rest);
  }

  lemma RestWritten(fin: bool, rsv: nat, opcode: nat, masked: bool, form: Form, n: nat, s: seq<Byte>, w: Wire,
                    rest: seq<Byte>)
    requires rsv < 8 && opcode < 16 && Fits(form, n)
    requires DecodeRest(fin, rsv, opcode, masked, form, n, s) == Some((w, rest))
    ensures WellFormed(w) && s == Key(w) + Body(w) + rest
    ensures w.fin == fin && w.rsv == rsv && w.opcode == opcode && w.key.Some? == masked && w.form == form && |w.payload| == n
  {
    if masked {
      MaskTwice(s[4..4 + n], s[..4]);
      assert s == s[..4] + s[4..4 + n] + s[4 + n..];
    } else {
      assert s == s[..n] + s[n..];
    }
  }

  lemma Reassemble(s: seq<Byte>, w: Wire, rest: seq<Byte>)
    requires WellFormed(w) && |s| >= 2 + Width(w.form) && Header(w) == s[..2]
    requires s[2..2 + Width(w.form)] == PutBigEndian(|w.payload|, Width(w.form))
    requires s[2 + Width(w.form)..] == Key(w) + Body(w) + rest
    ensures s == Bytes(w) + rest
  {
    assert s == s[..2] + s[2..2 + Width(w.form)] + s[2 + Width(w.form)..];
  }

  /** And only well-formed frames decode. */
  lemma WrittenIfDecodes(s: seq<Byte>, w: Wire, rest: seq<Byte>)
    requires Decode(s) == Some((w, rest))
    ensures WellFormed(w) && s == Bytes(w) + rest
  {
    var form := FormOf(s[1] % 128);
    var width := Width(form);
    var n := if form == Seven then s[1] % 128 else BigEndian(s[2..2 + width]);
    RestWritten(s[0] >= 128, s[0] / 16 % 8, s[0] % 16, s[1] >= 128, form, n, s[2 + width..], w, rest);
    HeaderWritten(s, w, n);
    PutsWhatRead(s[2..2 + width]);
    Reassemble(s, w, rest);
  }

  lemma HeaderWritten(s: seq<Byte>, w: Wire, n: nat)
    requires |s| >= 2 && WellFormed(w) && |w.payload| == n
    requires w.fin == (s[0] >= 128) && w.rsv == s[0] / 16 % 8 && w.opcode == s[0] % 16
    requires w.key.Some? == (s[1] >= 128) && w.form == FormOf(s[1] % 128) && (w.form == Seven ==> n == s[1] % 128)
    ensures Header(w) == s[..2]
  {
  }

  // ---- What the server writes -------------------------------------------------------

  function LeastForm(n: nat): Form {
    if n < 126 then Seven else if n < 0x1_0000 then Sixteen else SixtyFour
  }

  function TextWire(payload: seq<Byte>): Wire {
    Wire(true, 0, 1, None, LeastForm(|payload|), payload)
  }

  lemma TextFrameIs(payload: seq<Byte>)
    requires |payload| < 0x8000_0000_0000_0000
    ensures WellFormed(TextWire(payload)) && TextFrame(payload) == Bytes(TextWire(payload))
  {
    var w := TextWire(payload);
    assert Header(w) + PutBigEndian(|payload|, Width(w.form)) + [] + payload
        == Header(w) + PutBigEndian(|payload|, Width(w.form)) + payload;
    assert |payload| < 126 ==> Header(w) + [] == Header(w);
  }

  /** Any client reads a broadcast back as one whole unmasked text message, then whatever
      follows it; and no frame that says the same is shorter. */
  lemma TextFrameDecodes(payload: seq<Byte>, rest: seq<Byte>)
    requires |payload| < 0x8000_0000_0000_0000
    ensures Decode(TextFrame(payload) + rest) == Some((TextWire(payload), rest))
    ensures forall w: Wire | WellFormed(w) && w.payload == payload :: |Bytes(w)| >= |TextFrame(payload)|
  {
    TextFrameIs(payload);
    DecodesWhatWritten(TextWire(payload), rest);
  }

  /** Control frames are always short and whole, whatever they are given to say. */
  lemma ControlFrameDecodes(opcode: Byte, payload: seq<Byte>, rest: seq<Byte>)
    requires opcode < 16
    ensures Decode(ControlFrame(opcode, payload) + rest)
            == Some((Wire(true, 0, opcode, None, Seven, Truncated(payload)), rest))
    ensures |Truncated(payload)| <= 125 && Truncated(payload) <= payload
  {
    var w := Wire(true, 0, opcode, None, Seven, Truncated(payload));
    assert Header(w) + [] + [] + Truncated(payload) == ControlFrame(opcode, payload);
    DecodesWhatWritten(w, rest);
  }

  /** A Close frame carries its code whatever the reason, and a reason of up to 123 bytes whole. */
  lemma CloseFrameDecodes(code: nat, reason: seq<Byte>, rest: seq<Byte>)
    requires code < 0x1_0000
    ensures
      var said := if |reason| <= 123 then reason else reason[..123];
      && Decode(CloseFrame(code, reason) + rest) == Some((Wire(true, 0, 8, None, Seven, PutBigEndian(code, 2) + said), rest))
      && BigEndian((PutBigEndian(code, 2) + said)[..2]) == code
  {
    var said := if |reason| <= 123 then reason else reason[..123];
    ControlFrameDecodes(CLOSE, PutBigEndian(code, 2) + reason, rest);
    assert Truncated(PutBigEndian(code, 2) + reason) == PutBigEndian(code, 2) + said;
    assert (PutBigEndian(code, 2) + said)[..2] == PutBigEndian(code, 2);
    Widths();
    ReadsWhatPut(code, 2);
  }

  // ---- What the server accepts ------------------------------------------------------

  /** Sections 5.1, 5.2 and 5.5: no extension bits, a mask, a known opcode, control frames
      whole and short; and the hub's own limit. */
  predicate Acceptable(w: Wire) {
    && w.rsv == 0 && w.key.Some? && w.opcode in {0, 1, 2, 8, 9, 10}
    && (w.opcode >= 8 ==> w.fin && |w.payload| <= 125)
    && |w.payload| <= 0x10_0000
  }

  /** The server takes a frame exactly when the format does and it is acceptable, and then it
      takes the same payload and leaves the same rest. */
  lemma AcceptsIff(s: seq<Byte>)
    ensures Inbound(s).Got? <==> Decode(s).Some? && Acceptable(Decode(s).value.0)
    ensures Inbound(s).Got? ==>
              var (w, rest) := Decode(s).value;
              Inbound(s) == Got(Frame(w.fin, w.opcode, w.payload), rest)
  {
    if |s| >= 2 && s[0] / 16 % 8 == 0 && s[1] >= 128 {
      var extra := ExtraLength(s[1] % 128);
      assert extra == Width(FormOf(s[1] % 128));
      if |s| >= 2 + extra {
        var length := if extra == 0 then s[1] % 128 else BigEndian(s[2..2 + extra]);
        LengthFits(s, extra);
        var t := s[2 + extra..];
        if |t| >= 4 + length {
          assert |Masked(t[4..4 + length], t[..4])| == length;
        }
      }
    }
  }

  lemma LengthFits(s: seq<Byte>, extra: nat)
    requires |s| >= 2 + extra && extra == ExtraLength(s[1] % 128)
    ensures extra == 2 ==> BigEndian(s[2..4]) < 0x1_0000
  {
    Widths();
    PutsWhatRead(s[2..2 + extra]);
  }

  /** Why a frame of the format is refused, if it is. */
  function Fault(w: Wire): Option<Failure> {
    if w.rsv != 0 then Some(ReservedBits)
    else if w.key.None? then Some(UnmaskedClientFrame)
    else if w.opcode !in {0, 1, 2, 8, 9, 10} then Some(UnknownOpcode)
    else if w.opcode >= 8 && |w.payload| > 125 then Some(ControlFrameTooLong)
    else if w.opcode >= 8 && !w.fin then Some(FragmentedControlFrame)
    else if |w.payload| > 0x10_0000 then Some(PayloadTooLarge)
    else None
  }

  /** A faulty frame is refused for its first fault, on its header and its length alone: whatever
      follows them, and however little of it has come. */
  lemma FaultIs(w: Wire, rest: seq<Byte>)
    requires WellFormed(w)
    ensures Fault(w).None? <==> Acceptable(w)
    ensures Fault(w).Some? ==> Inbound(Header(w) + PutBigEndian(|w.payload|, Width(w.form)) + rest) == Refused(Fault(w).value)
  {
    var h, l := Header(w), PutBigEndian(|w.payload|, Width(w.form));
    Parts(h, l, rest);
    HeaderReads(w);
    LengthReads(w);
    assert (h + l + rest)[0] == h[0] && (h + l + rest)[1] == h[1];
  }

  /** A 64-bit length with its top bit set is no length. */
  lemma TopBitIsTooLarge(s: seq<Byte>)
    requires |s| >= 10 && s[0] / 16 % 8 == 0 && s[1] == 255 && s[2] >= 128
    ensures Inbound(s) == Refused(PayloadTooLarge) && Decode(s).None?
  {
    NetworkIs(s[2..10]);
    Widths();
    assert s[2..10][0] == s[2] && Pow256(7) == 0x100_0000_0000_0000;
    AtLeastTimes(s[2], 128, Pow256(7));
  }

  lemma AtLeastTimes(a: nat, b: nat, p: nat)
    requires a >= b
    ensures a * p >= b * p
  {
  }

  /** Legal frames back to back. */
  function Concat(ws: seq<Wire>): seq<Byte>
    requires forall w | w in ws :: WellFormed(w)
  {
    if ws == [] then [] else Bytes(ws[0]) + Concat(ws[1..])
  }

  /** The reader called n times; None if some call is refused. */
  function InboundMany(s: seq<Byte>, n: nat): Option<(seq<Frame>, seq<Byte>)>
    decreases n
  {
    if n == 0 then Some(([], s))
    else
      match Inbound(s)
      case Refused(_) => None
      case Got(f, rest) =>
        match InboundMany(rest, n - 1)
        case None => None
        case Some(more) => Some(([f] + more.0, more.1))
  }

  ghost predicate Legal(ws: seq<Wire>) {
    forall w | w in ws :: WellFormed(w) && Acceptable(w)
  }

  /** What the frames say. */
  function Said(ws: seq<Wire>): (fs: seq<Frame>)
    requires forall w | w in ws :: w.opcode < 256
    ensures |fs| == |ws| && forall i | 0 <= i < |ws| :: fs[i] == Frame(ws[i].fin, ws[i].opcode, ws[i].payload)
  {
    if ws == [] then [] else [Frame(ws[0].fin, ws[0].opcode, ws[0].payload)] + Said(ws[1..])
  }

  lemma Associates<T>(a: seq<T>, b: seq<T>, c: seq<T>)
    ensures (a + b) + c == a + (b + c)
  {
  }

  /** Any run of legal client frames is read back frame by frame, masks undone, to the byte; the octets
      being what section 5.2 makes of the frames, masked bit by bit as section 5.3 has it. */
  lemma {:induction false} ReadsEveryFrame(ws: seq<Wire>, rest: seq<Byte>)
    requires Legal(ws)
    ensures forall w, s | w in ws :: IsFrame(w, s) <==> s == Bytes(w)
    ensures InboundMany(Concat(ws) + rest, |ws|) == Some((Said(ws), rest))
    decreases |ws|
  {
    forall w, s | w in ws
      ensures IsFrame(w, s) <==> s == Bytes(w)
    {
      FrameIff(w, s);
    }
    if ws == [] {
      assert [] + rest == rest;
    } else {
      var more := Concat(ws[1..]) + rest;
      Associates(Bytes(ws[0]), Concat(ws[1..]), rest);
      DecodesWhatWritten(ws[0], more);
      AcceptsIff(Bytes(ws[0]) + more);
      ReadsEveryFrame(ws[1..], rest);
    }
  }

  lemma HeaderAccepted(w: Wire, s: seq<Byte>)
    requires WellFormed(w) && Acceptable(w) && |s| >= 2 + Width(w.form)
    requires s[..2] == Header(w) && s[2..2 + Width(w.form)] == PutBigEndian(|w.payload|, Width(w.form))
    ensures Inbound(s) == InboundBody(w.fin, w.opcode, |w.payload|, s[2 + Width(w.form)..])
  {
    HeaderReads(w);
    LengthReads(w);
    assert s[0] == s[..2][0] && s[1] == s[..2][1];
  }

  lemma CutHeader(w: Wire, s: seq<Byte>)
    requires WellFormed(w) && Acceptable(w) && |s| < 2 + Width(w.form)
    requires |s| >= 2 ==> s[..2] == Header(w)
    ensures Inbound(s) == Refused(if |s| == 0 || |s| == 2 then Eof else UnexpectedEof)
  {
    HeaderReads(w);
    if |s| >= 2 {
      assert s[0] == s[..2][0] && s[1] == s[..2][1];
    }
  }

  /** Where one read has ended and the next has not begun: before the header, the length, the
      key and the payload. */
  predicate BetweenReads(w: Wire, n: nat) {
    n == 0 || n == 2 || n == 2 + Width(w.form) || n == 6 + Width(w.form)
  }

  lemma CutBody(fin: bool, opcode: Byte, length: nat, s: seq<Byte>)
    requires |s| < 4 + length
    ensures InboundBody(fin, opcode, length, s) == Refused(if |s| == 0 || |s| == 4 then Eof else UnexpectedEof)
  {
  }

  lemma FrameLength(w: Wire)
    requires WellFormed(w) && w.key.Some?
    ensures |Bytes(w)| == 6 + Width(w.form) + |w.payload|
  {
  }

  /** A stream cut anywhere inside a legal frame is an end of file, never a frame.  It is the
      plain kind, as after a whole frame, exactly when the cut falls between two of the reads. */
  lemma CutFrame(w: Wire, n: nat)
    requires WellFormed(w) && Acceptable(w) && n < |Bytes(w)|
    ensures
      Inbound(Bytes(w)[..n])
      == Refused(if BetweenReads(w, n) then Eof else UnexpectedEof)
  {
    var t, width := Bytes(w)[..n], Width(w.form);
    Slices(w, []);
    assert Bytes(w) + [] == Bytes(w);
    FrameLength(w);
    assert n >= 2 ==> t[..2] == Header(w);
    if n < 2 + width {
      CutHeader(w, t);
    } else {
      assert t[2..2 + width] == Bytes(w)[2..2 + width];
      HeaderAccepted(w, t);
      CutBody(w.fin, w.opcode, |w.payload|, t[2 + width..]);
    }
  }
}
