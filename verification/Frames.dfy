/** The WebSocket frame codec (internal/wshub/wshub.go): what the server writes and reads. */
module Frames {
  import opened Bits

  type Byte = b: int | 0 <= b < 256

  const FIN: Byte := 128
  const TEXT: Byte := 1
  const CLOSE: Byte := 8
  const MAX_INBOUND := 0x10_0000

  // ---- Bytes ------------------------------------------------------------------------

  /** The big-endian reading of some bytes. */
  function BigEndian(s: seq<Byte>): (n: nat) {
    if s == [] then 0 else 256 * BigEndian(s[..|s| - 1]) + s[|s| - 1]
  }

  /** The low `width` bytes of n, most significant first. */
  function PutBigEndian(n: nat, width: nat): (s: seq<Byte>)
    ensures |s| == width
  {
    if width == 0 then [] else PutBigEndian(n / 256, width - 1) + [n % 256]
  }

  function XorByte(a: Byte, k: Byte): Byte {
    XorWidth(a, k, 8);
    Xor(a, k)
  }

  /** payload[i] ^= key[i % 4], throughout. */
  function Masked(payload: seq<Byte>, key: seq<Byte>): (r: seq<Byte>)
    requires |key| == 4
    ensures |r| == |payload| && forall i | 0 <= i < |r| :: r[i] == XorByte(payload[i], key[i % 4])
  {
    seq(|payload|, i requires 0 <= i < |payload| => XorByte(payload[i], key[i % 4]))
  }

  // ---- Writing ----------------------------------------------------------------------

  /** A text frame as it lies in its buffer. */
  function TextFrame(payload: seq<Byte>): seq<Byte> {
    var n := |payload|;
    if n < 126 then [FIN + TEXT, n] + payload
    else if n < 0x1_0000 then [FIN + TEXT, 126] + PutBigEndian(n, 2) + payload
    else [FIN + TEXT, 127] + PutBigEndian(n, 8) + payload
  }

  function Truncated(payload: seq<Byte>): (r: seq<Byte>)
    ensures |r| <= 125
  {
    if |payload| > 125 then payload[..125] else payload
  }

  function ControlFrame(opcode: Byte, payload: seq<Byte>): seq<Byte>
    requires opcode < 16
  {
    [FIN + opcode, |Truncated(payload)|] + Truncated(payload)
  }

  function CloseFrame(code: nat, reason: seq<Byte>): seq<Byte> {
    ControlFrame(CLOSE, PutBigEndian(code, 2) + reason)
  }

  /** Copy a slice into a buffer, as Go's copy does. */
  method Copy(out: array<Byte>, at: nat, src: seq<Byte>)
    requires at + |src| <= out.Length
    modifies out
    ensures out[..] == old(out[..at]) + src + old(out[at + |src|..])
  {
    for i := 0 to |src|
      invariant forall j | 0 <= j < i :: out[at + j] == src[j]
      invariant forall j | 0 <= j < at || at + i <= j < out.Length :: out[j] == old(out[j])
    {
      out[at + i] := src[i];
    }
  }

  /** Two header bytes, the length bytes there are, and the payload. */
  method Fill(second: Byte, length: seq<Byte>, payload: seq<Byte>) returns (out: array<Byte>)
    ensures fresh(out) && out[..] == [FIN + TEXT, second] + length + payload
  {
    out := new Byte[2 + |length| + |payload|];
    out[0], out[1] := FIN + TEXT, second;
    assert out[..2] == [FIN + TEXT, second];
    Copy(out, 2, length);
    assert out[..2 + |length|] == [FIN + TEXT, second] + length;
    Copy(out, 2 + |length|, payload);
  }

  method EncodeTextFrame(payload: seq<Byte>) returns (out: array<Byte>)
    ensures fresh(out) && out[..] == TextFrame(payload)
  {
    var n := |payload|;
    if n < 126 {
      out := Fill(n, [], payload);
      assert [FIN + TEXT, n] + [] == [FIN + TEXT, n];
    } else if n < 0x1_0000 {
      out := Fill(126, PutBigEndian(n, 2), payload);
    } else {
      out := Fill(127, PutBigEndian(n, 8), payload);
    }
  }

  method EncodeControlFrame(opcode: Byte, payload: seq<Byte>) returns (out: array<Byte>)
    requires opcode < 16
    ensures fresh(out) && out[..] == ControlFrame(opcode, payload)
  {
    var body := payload;
    if |body| > 125 {
      body := body[..125];
    }
    out := new Byte[2 + |body|];
    out[0], out[1] := FIN + opcode, |body|;
    Copy(out, 2, body);
  }

  // ---- Reading ----------------------------------------------------------------------

  datatype Failure =
    | Eof | UnexpectedEof | ReservedBits | UnmaskedClientFrame | PayloadTooLarge
    | UnknownOpcode | ControlFrameTooLong | FragmentedControlFrame

  datatype Frame = Frame(fin: bool, opcode: Byte, payload: seq<Byte>)

  datatype Read = Got(frame: Frame, rest: seq<Byte>) | Refused(why: Failure)

  predicate Known(opcode: Byte) {
    opcode <= 2 || 8 <= opcode <= 10
  }

  /** io.ReadFull on a stream that ends too soon. */
  function Short(available: nat): Failure {
    if available == 0 then Eof else UnexpectedEof
  }

  /** How many bytes of length follow the second byte. */
  function ExtraLength(short: nat): nat {
    if short == 126 then 2 else if short == 127 then 8 else 0
  }

  /** Why a header is refused, if it is, once its length is known. */
  function Objection(fin: bool, opcode: Byte, extra: nat, length: nat): (r: seq<Failure>) {
    if extra == 8 && length >= 0x8000_0000_0000_0000 then [PayloadTooLarge]
    else if !Known(opcode) then [UnknownOpcode]
    else if opcode >= 8 && length > 125 then [ControlFrameTooLong]
    else if opcode >= 8 && !fin then [FragmentedControlFrame]
    else if length > MAX_INBOUND then [PayloadTooLarge]
    else []
  }

  /** One client frame off the front of a stream. */
  function Inbound(s: seq<Byte>): Read {
    if |s| < 2 then Refused(Short(|s|))
    else if s[0] / 16 % 8 != 0 then Refused(ReservedBits)
    else if s[1] < 128 then Refused(UnmaskedClientFrame)
    else
      var extra := ExtraLength(s[1] % 128);
      if |s| < 2 + extra then Refused(Short(|s| - 2))
      else
        var length := if extra == 0 then s[1] % 128 else BigEndian(s[2..2 + extra]);
        var objection := Objection(s[0] >= 128, s[0] % 16, extra, length);
        if objection != [] then Refused(objection[0])
        else InboundBody(s[0] >= 128, s[0] % 16, length, s[2 + extra..])
  }

  /** The masking key, and the payload under it. */
  function InboundBody(fin: bool, opcode: Byte, length: nat, s: seq<Byte>): Read {
    if |s| < 4 then Refused(Short(|s|))
    else if |s| - 4 < length then Refused(Short(|s| - 4))
    else Got(Frame(fin, opcode, Masked(s[4..4 + length], s[..4])), s[4 + length..])
  }

  /** The connection's buffered reader. */
  class Reader {
    var unread: seq<Byte>

    constructor (stream: seq<Byte>)
      ensures unread == stream
    {
      unread := stream;
    }

    /** All n bytes, or none that count: a stream that ends inside them is drained. */
    method ReadFull(n: nat) returns (got: seq<Byte>, why: Failure)
      requires n > 0
      modifies this
      ensures n <= old(|unread|) ==> got == old(unread)[..n] && unread == old(unread)[n..]
      ensures n > old(|unread|) ==> got == [] && unread == [] && why == Short(old(|unread|))
    {
      why := Short(|unread|);
      if n <= |unread| {
        got, unread := unread[..n], unread[n..];
      } else {
        got, unread := [], [];
      }
    }

    method ReadFrame() returns (r: Read)
      modifies this
      ensures r == Inbound(old(unread))
      ensures r.Got? ==> unread == r.rest
    {
      ghost var s := unread;
      var header, why := ReadFull(2);
      if header == [] {
        return Refused(why);
      }
      if header[0] / 16 % 8 != 0 {
        return Refused(ReservedBits);
      }
      if header[1] < 128 {
        return Refused(UnmaskedClientFrame);
      }
      var fin, opcode, length := header[0] >= 128, header[0] % 16, header[1] % 128;
      var extra := ExtraLength(length);
      if extra > 0 {
        var ext, whyExt := ReadFull(extra);
        if ext == [] {
          return Refused(whyExt);
        }
        assert ext == s[2..2 + extra];
        length := BigEndian(ext);
      }
      assert unread == s[2 + extra..];
      var objection := Objection(fin, opcode, extra, length);
      if objection != [] {
        return Refused(objection[0]);
      }
      r := ReadRest(fin, opcode, length);
    }

    /** Nothing is allocated for a length that has not been checked. */
    method ReadRest(fin: bool, opcode: Byte, length: nat) returns (r: Read)
      requires length <= MAX_INBOUND
      modifies this
      ensures r == InboundBody(fin, opcode, length, old(unread))
      ensures r.Got? ==> unread == r.rest
    {
      ghost var s := unread;
      var key, why := ReadFull(4);
      if key == [] {
        return Refused(why);
      }
      if length == 0 {
        return Got(Frame(fin, opcode, []), unread);
      }
      var body, whyBody := ReadFull(length);
      if body == [] {
        return Refused(whyBody);
      }
      var payload := new Byte[length](i requires 0 <= i < |body| => body[i]);
      assert payload[..] == body == s[4..4 + length];
      Unmask(payload, key);
      return Got(Frame(fin, opcode, payload[..]), unread);
    }
  }

  method Unmask(payload: array<Byte>, key: seq<Byte>)
    requires |key| == 4
    modifies payload
    ensures payload[..] == Masked(old(payload[..]), key)
  {
    for i := 0 to payload.Length
      invariant forall j | 0 <= j < i :: payload[j] == XorByte(old(payload[j]), key[j % 4])
      invariant forall j | i <= j < payload.Length :: payload[j] == old(payload[j])
    {
      payload[i] := XorByte(payload[i], key[i % 4]);
    }
  }
}
