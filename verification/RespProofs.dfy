/** Whatever the server says in the protocol, the client hears. */
module RespProofs {
  import opened Lines
  import opened Wrappers
  import opened Resp

  // ---- Numbers ----------------------------------------------------------------------

  lemma {:induction false} DigitsRead(n: nat)
    ensures AllDigits(Digits(n)) && ValueOf(Digits(n)) == n
  {
    if n >= 10 {
      DigitsRead(n / 10);
      assert Digits(n)[..|Digits(n)| - 1] == Digits(n / 10);
    } else {
      assert Digits(n)[..0] == "";
    }
  }

  predicate IsInt64(n: int) {
    MIN_INT64 <= n <= MAX_INT64
  }

  lemma UnsignedReads(n: nat)
    requires n <= MAX_INT64
    ensures Atoi(Digits(n)) == Some(n)
  {
    DigitsRead(n);
    assert Digits(n)[0] in Digits(n);
    assert IsDigit(Digits(n)[0]);
  }

  lemma NegativeReads(n: int)
    requires MIN_INT64 <= n < 0
    ensures Atoi("-" + Digits(-n)) == Some(n)
  {
    DigitsRead(-n);
    assert ("-" + Digits(-n))[1..] == Digits(-n);
    assert ("-" + Digits(-n))[0] == '-';
  }

  /** What %d writes, Atoi reads. */
  lemma DecimalReads(n: int)
    requires IsInt64(n)
    ensures Atoi(Decimal(n)) == Some(n)
  {
    if n < 0 {
      NegativeReads(n);
    } else {
      UnsignedReads(n);
    }
  }

  /** A numeral: digits, perhaps after a sign. */
  ghost predicate Denotes(s: string, n: int) {
    || (s != "" && AllDigits(s) && n == ValueOf(s))
    || (|s| >= 2 && s[0] == '+' && AllDigits(s[1..]) && n == ValueOf(s[1..]))
    || (|s| >= 2 && s[0] == '-' && AllDigits(s[1..]) && -n == ValueOf(s[1..]))
  }

  /** Numerals of 64 bits, and nothing else, are numbers. */
  lemma AtoiIff(s: string, n: int)
    ensures Atoi(s) == Some(n) <==> Denotes(s, n) && -9_223_372_036_854_775_808 <= n <= 9_223_372_036_854_775_807
  {
    if s != "" && (s[0] == '-' || s[0] == '+') {
      assert !IsDigit(s[0]) && s[0] in s;
    }
  }

  // ---- The protocol -----------------------------------------------------------------

  /** Everything a server can answer with. */
  datatype Wire =
    | Simple(text: string)
    | Error(message: string)
    | Integer(value: int)
    | BulkString(text: string)
    | NilBulk
    | NilArray
    | Arr(items: seq<Wire>)

  function Encode(w: Wire): string
    decreases w
  {
    match w
    case Simple(s) => "+" + s + CRLF
    case Error(s) => "-" + s + CRLF
    case Integer(n) => ":" + Decimal(n) + CRLF
    case BulkString(s) => Bulk(s)
    case NilBulk => "$-1" + CRLF
    case NilArray => "*-1" + CRLF
    case Arr(items) => "*" + Decimal(|items|) + CRLF + EncodeAll(items)
  }

  function EncodeAll(ws: seq<Wire>): string
    decreases ws
  {
    if ws == [] then "" else Encode(ws[0]) + EncodeAll(ws[1..])
  }

  /** A line of text may not break the line. */
  predicate OneLine(s: string) {
    '\n' !in s && '\r' !in s
  }

  /** Within the protocol, and with no error inside an array. */
  predicate Speakable(w: Wire, inside: bool)
    decreases w
  {
    match w
    case Simple(s) => OneLine(s)
    case Error(s) => OneLine(s) && !inside
    case Integer(n) => IsInt64(n)
    case BulkString(s) => IsInt64(|s|)
    case NilBulk => true
    case NilArray => true
    case Arr(items) => IsInt64(|items|) && AllSpeakable(items)
  }

  predicate AllSpeakable(ws: seq<Wire>)
    decreases ws
  {
    ws == [] || (Speakable(ws[0], true) && AllSpeakable(ws[1..]))
  }

  predicate IsNil(w: Wire) {
    w.NilBulk? || w.NilArray?
  }

  /** What it means to a caller. */
  function Meaning(w: Wire): Reply
    requires !IsNil(w) && !w.Error?
    decreases w
  {
    match w
    case Simple(s) => Text(s)
    case Integer(n) => Number(n)
    case BulkString(s) => Text(s)
    case Arr(items) => Array(Meanings(items))
  }

  function Meanings(ws: seq<Wire>): (r: seq<Option<Reply>>)
    ensures |r| == |ws|
    decreases ws
  {
    if ws == [] then []
    else [if IsNil(ws[0]) || ws[0].Error? then None else Some(Meaning(ws[0]))] + Meanings(ws[1..])
  }

  function Heard(w: Wire, rest: string): Result {
    if w.Error? then Failed(ServerError(w.message)) else if IsNil(w) then Nil(rest) else Got(Meaning(w), rest)
  }

  // ---- One line ---------------------------------------------------------------------

  lemma TrimsOnlyBreaks(s: string)
    requires OneLine(s)
    ensures TrimRight(s + CRLF) == s && TrimRight(s) == s
  {
    var a := s + CRLF;
    assert a[..|a| - 1] == s + "\r" && (s + "\r")[..|s|] == s;
    assert s == "" || s[|s| - 1] in s;
    assert TrimRight(a) == TrimRight(s + "\r") == TrimRight(s);
  }

  /** A tagged line, whatever follows. */
  lemma LineReads(tag: char, s: string, rest: string)
    requires OneLine(s) && tag != '\n'
    ensures
      var all := [tag] + s + CRLF + rest;
      && Line(all) == Some([tag] + s + CRLF) && |[tag] + s + CRLF| >= 3
      && all[|[tag] + s + CRLF|..] == rest
      && ([tag] + s + CRLF)[0] == tag && TrimRight(([tag] + s + CRLF)[1..]) == s
  {
    var head := [tag] + s + "\r";
    assert [tag] + s + CRLF == head + "\n";
    assert [tag] + s + CRLF + rest == head + "\n" + rest;
    assert '\n' !in head;
    FirstLine(head, rest);
    assert (head + "\n" + rest)[..|head| + 1] == head + "\n";
    assert ([tag] + s + CRLF)[1..] == s + CRLF;
    TrimsOnlyBreaks(s);
  }

  /** A tagged line is read by its tag and its body. */
  lemma TaggedReads(tag: char, s: string, rest: string)
    requires OneLine(s) && tag != '\n'
    ensures ReadReply([tag] + s + CRLF + rest) == Tagged(tag, s, rest)
  {
    LineReads(tag, s, rest);
  }

  lemma DecimalIsOneLine(n: int)
    requires IsInt64(n)
    ensures OneLine(Decimal(n))
  {
    DigitsRead(if n < 0 then -n else n);
  }

  // ---- Round trip -------------------------------------------------------------------

  lemma HeadReads(d: string, n: nat, more: string)
    requires OneLine(d) && Atoi(d) == Some(n) && n + 2 <= |more|
    ensures ReadReply(['$'] + d + CRLF + more) == Got(Text(more[..n]), more[n + 2..])
  {
    TaggedReads('$', d, more);
  }

  lemma BulkHeadReads(n: nat, more: string)
    requires IsInt64(n) && n + 2 <= |more|
    ensures ReadReply(['$'] + Decimal(n) + CRLF + more) == Got(Text(more[..n]), more[n + 2..])
  {
    DecimalReads(n);
    DecimalIsOneLine(n);
    HeadReads(Decimal(n), n, more);
  }

  lemma BulkReads(s: string, rest: string)
    requires IsInt64(|s|)
    ensures ReadReply(Bulk(s) + rest) == Got(Text(s), rest)
  {
    var more := s + CRLF + rest;
    BulkHeadReads(|s|, more);
    assert more[..|s|] == s && more[|s| + 2..] == rest;
    assert Bulk(s) + rest == ['$'] + Decimal(|s|) + CRLF + more;
  }

  lemma TextReads(w: Wire, rest: string)
    requires Speakable(w, false) && (w.Simple? || w.Error?)
    ensures ReadReply(Encode(w) + rest) == Heard(w, rest)
  {
    if w.Simple? {
      TaggedReads('+', w.text, rest);
    } else {
      TaggedReads('-', w.message, rest);
    }
  }

  lemma IntegerReads(n: int, rest: string)
    requires IsInt64(n)
    ensures ReadReply(Encode(Integer(n)) + rest) == Got(Number(n), rest)
  {
    DecimalReads(n);
    DecimalIsOneLine(n);
    TaggedReads(':', Decimal(n), rest);
  }

  lemma NilReads(w: Wire, rest: string)
    requires IsNil(w)
    ensures ReadReply(Encode(w) + rest) == Nil(rest)
  {
    MinusOne();
    var tag := if w.NilBulk? then '$' else '*';
    assert Encode(w) + rest == [tag] + "-1" + CRLF + rest;
    TaggedReads(tag, "-1", rest);
  }

  lemma MinusOne()
    ensures Decimal(-1) == "-1" && Atoi("-1") == Some(-1) && OneLine("-1")
  {
    DecimalReads(-1);
  }

  /** An array's head, whatever its items. */
  lemma ArrayHeadReads(count: nat, more: string)
    requires IsInt64(count)
    ensures ReadReply(['*'] + Decimal(count) + CRLF + more)
            == match ReadItems(more, count)
               case Stopped(why) => Failed(why)
               case All(items, left) => Got(Array(items), left)
  {
    DecimalReads(count);
    DecimalIsOneLine(count);
    TaggedReads('*', Decimal(count), more);
  }

  lemma ArrayReads(items: seq<Wire>, rest: string)
    requires IsInt64(|items|) && ReadItems(EncodeAll(items) + rest, |items|) == All(Meanings(items), rest)
    ensures ReadReply(Encode(Arr(items)) + rest) == Got(Array(Meanings(items)), rest)
  {
    ArrayHeadReads(|items|, EncodeAll(items) + rest);
    Shift(['*'] + Decimal(|items|) + CRLF, EncodeAll(items), rest);
  }

  lemma Shift<T>(a: seq<T>, b: seq<T>, c: seq<T>)
    ensures a + b + c == a + (b + c)
  {
  }

  /** Any answer in the protocol is read as what it means, to its last byte and no further:
      strings that hold line breaks, nils, and arrays nested to any depth. */
  lemma {:induction false} ReplyReadsBack(w: Wire, rest: string)
    requires Speakable(w, false)
    ensures ReadReply(Encode(w) + rest) == Heard(w, rest)
    decreases w, 1
  {
    match w {
      case BulkString(s) => BulkReads(s, rest);
      case Arr(items) =>
        ItemsReadBack(items, rest);
        ArrayReads(items, rest);
      case Integer(n) => IntegerReads(n, rest);
      case Simple(_) => TextReads(w, rest);
      case Error(_) => TextReads(w, rest);
      case NilBulk => NilReads(w, rest);
      case NilArray => NilReads(w, rest);
    }
  }

  lemma {:induction false} ItemsReadBack(ws: seq<Wire>, rest: string)
    requires AllSpeakable(ws)
    ensures ReadItems(EncodeAll(ws) + rest, |ws|) == All(Meanings(ws), rest)
    decreases ws, 0
  {
    if ws == [] {
      assert EncodeAll(ws) + rest == rest;
    } else {
      var more := EncodeAll(ws[1..]) + rest;
      assert EncodeAll(ws) + rest == Encode(ws[0]) + more;
      assert Speakable(ws[0], false);
      ReplyReadsBack(ws[0], more);
      ItemsReadBack(ws[1..], rest);
    }
  }

  // ---- What is not a reply ----------------------------------------------------------

  /** A line of no known type is refused, and so is one that should be a number and is not. */
  lemma OddLine(tag: char, s: string, rest: string)
    requires OneLine(s) && tag != '\n'
    ensures tag !in "+-:$*" ==> ReadReply([tag] + s + CRLF + rest) == Failed(UnknownType(tag))
    ensures tag in ":$*" && Atoi(s).None? ==> ReadReply([tag] + s + CRLF + rest) == Failed(BadNumber)
  {
    TaggedReads(tag, s, rest);
  }

  lemma NoLine(s: string)
    requires '\n' !in s
    ensures ReadReply(s) == Failed(EndOfStream)
  {
  }

  /** A tagged line cut short. */
  lemma CutLine(tag: char, s: string, n: nat)
    requires OneLine(s) && tag != '\n' && n < |[tag] + s + CRLF|
    ensures ReadReply(([tag] + s + CRLF)[..n]) == Failed(EndOfStream)
  {
    var head := [tag] + s + "\r";
    assert [tag] + s + CRLF == head + "\n" && (head + "\n")[..n] == head[..n];
    assert '\n' !in head;
    assert forall c | c in head[..n] :: c in head;
    NoLine(head[..n]);
  }

  lemma Prefix<T>(a: seq<T>, b: seq<T>, n: nat)
    requires n <= |a + b|
    ensures (a + b)[..n] == if n <= |a| then a[..n] else a + b[..n - |a|]
  {
  }

  lemma CutBulk(s: string, n: nat)
    requires IsInt64(|s|) && n < |Bulk(s)|
    ensures ReadReply(Bulk(s)[..n]) == Failed(EndOfStream)
  {
    var head := ['$'] + Decimal(|s|) + CRLF;
    var body := s + CRLF;
    assert Bulk(s) == head + body;
    DecimalReads(|s|);
    DecimalIsOneLine(|s|);
    Prefix(head, body, n);
    if n < |head| {
      CutLine('$', Decimal(|s|), n);
    } else {
      assert head + body[..n - |head|] == (head + body)[..n];
      TaggedReads('$', Decimal(|s|), body[..n - |head|]);
    }
  }

  /** A stream cut anywhere inside a reply is an end of stream, never a reply. */
  lemma {:induction false} CutReply(w: Wire, n: nat)
    requires Speakable(w, false) && n < |Encode(w)|
    ensures ReadReply(Encode(w)[..n]) == Failed(EndOfStream)
    decreases w, 1
  {
    match w {
      case Simple(s) => CutLine('+', s, n);
      case Error(s) => CutLine('-', s, n);
      case Integer(v) =>
        DecimalIsOneLine(v);
        CutLine(':', Decimal(v), n);
      case BulkString(s) => CutBulk(s, n);
      case NilBulk => CutNil('$', n);
      case NilArray => CutNil('*', n);
      case Arr(items) => CutArray(items, n);
    }
  }

  lemma CutNil(tag: char, n: nat)
    requires tag in "$*" && n < 5
    ensures ReadReply(([tag] + "-1" + CRLF)[..n]) == Failed(EndOfStream)
  {
    MinusOne();
    CutLine(tag, "-1", n);
  }

  lemma {:induction false} CutArray(items: seq<Wire>, n: nat)
    requires IsInt64(|items|) && AllSpeakable(items) && n < |Encode(Arr(items))|
    ensures ReadReply(Encode(Arr(items))[..n]) == Failed(EndOfStream)
    decreases items, 1
  {
    var head, body := ['*'] + Decimal(|items|) + CRLF, EncodeAll(items);
    assert Encode(Arr(items)) == head + body;
    Prefix(head, body, n);
    if n < |head| {
      CutHead(|items|, n);
      assert Encode(Arr(items))[..n] == head[..n];
    } else {
      CutItems(items, n - |head|);
      StopsArray(|items|, body[..n - |head|]);
      assert Encode(Arr(items))[..n] == head + body[..n - |head|];
    }
  }

  lemma CutHead(count: nat, n: nat)
    requires IsInt64(count) && n < |['*'] + Decimal(count) + CRLF|
    ensures ReadReply((['*'] + Decimal(count) + CRLF)[..n]) == Failed(EndOfStream)
  {
    DecimalIsOneLine(count);
    CutLine('*', Decimal(count), n);
  }

  lemma StopsArray(count: nat, more: string)
    requires IsInt64(count) && ReadItems(more, count) == Stopped(EndOfStream)
    ensures ReadReply(['*'] + Decimal(count) + CRLF + more) == Failed(EndOfStream)
  {
    ArrayHeadReads(count, more);
  }

  lemma {:induction false} CutItems(ws: seq<Wire>, n: nat)
    requires AllSpeakable(ws) && n < |EncodeAll(ws)|
    ensures ReadItems(EncodeAll(ws)[..n], |ws|) == Stopped(EndOfStream)
    decreases ws, 0
  {
    var first, body := Encode(ws[0]), EncodeAll(ws[1..]);
    assert EncodeAll(ws) == first + body;
    SpeakableAlone(ws[0]);
    Prefix(first, body, n);
    if n < |first| {
      CutReply(ws[0], n);
    } else {
      assert (first + body)[..n] == first + body[..n - |first|];
      ReplyReadsBack(ws[0], body[..n - |first|]);
      CutItems(ws[1..], n - |first|);
    }
  }

  // ---- Requests ---------------------------------------------------------------------

  function Commands(args: seq<string>): (ws: seq<Wire>)
    ensures |ws| == |args| && forall i | 0 <= i < |args| :: ws[i] == BulkString(args[i])
  {
    seq(|args|, i requires 0 <= i < |args| => BulkString(args[i]))
  }

  lemma {:induction false} BulksFromFront(args: seq<string>)
    ensures EncodeAll(Commands(args)) == Bulks(args)
  {
    if args != [] {
      var n := |args| - 1;
      BulksFromFront(args[..n]);
      assert Commands(args) == Commands(args[..n]) + [BulkString(args[n])];
      EncodeAppend(Commands(args[..n]), BulkString(args[n]));
    }
  }

  lemma {:induction false} EncodeAppend(ws: seq<Wire>, w: Wire)
    ensures EncodeAll(ws + [w]) == EncodeAll(ws) + Encode(w)
    decreases |ws|
  {
    if ws == [] {
      assert [w][1..] == [];
      assert EncodeAll([w]) == Encode(w) + "";
    } else {
      assert (ws + [w])[1..] == ws[1..] + [w];
      EncodeAppend(ws[1..], w);
    }
  }

  lemma {:induction false} ArgumentsSpeak(args: seq<string>)
    requires forall a | a in args :: IsInt64(|a|)
    ensures AllSpeakable(Commands(args))
    ensures Meanings(Commands(args)) == seq(|args|, i requires 0 <= i < |args| => Some(Text(args[i])))
    decreases |args|
  {
    if args != [] {
      assert Commands(args)[1..] == Commands(args[1..]);
      ArgumentsSpeak(args[1..]);
    }
  }

  /** What the client writes, its own reader returns: exactly the arguments, line breaks and all,
      and not a byte of what comes after. */
  lemma RequestReadsBack(args: seq<string>, rest: string)
    requires IsInt64(|args|) && forall a | a in args :: IsInt64(|a|)
    ensures ReadReply(Request(args) + rest)
            == Got(Array(seq(|args|, i requires 0 <= i < |args| => Some(Text(args[i])))), rest)
  {
    BulksFromFront(args);
    ArgumentsSpeak(args);
    var w := Arr(Commands(args));
    assert Encode(w) == Request(args);
    ReplyReadsBack(w, rest);
  }

  // ---- Conversations ----------------------------------------------------------------

  function Answers(ws: seq<Wire>): string {
    if ws == [] then "" else Encode(ws[0]) + Answers(ws[1..])
  }

  /** Reading n replies in turn, from wherever the one before stopped. */
  function ReadMany(s: string, n: nat): seq<Result>
    decreases n
  {
    if n == 0 then []
    else
      var r := ReadReply(s);
      if r.Failed? then [r] else [r] + ReadMany(r.rest, n - 1)
  }

  /** Each answer heard in turn, with the answers after it still to come. */
  function HeardInTurn(ws: seq<Wire>, rest: string): (r: seq<Result>)
    ensures |r| == |ws|
  {
    if ws == [] then [] else [Heard(ws[0], Answers(ws[1..]) + rest)] + HeardInTurn(ws[1..], rest)
  }

  /** Reading stays in step: the n-th read gives the n-th answer, nils included, as long as none is an
      error, whose rest the reader does not give back. */
  lemma {:induction false} StaysInStep(ws: seq<Wire>, rest: string)
    requires forall w | w in ws :: Speakable(w, true)
    ensures ReadMany(Answers(ws) + rest, |ws|) == HeardInTurn(ws, rest)
    decreases |ws|
  {
    if ws != [] {
      var more := Answers(ws[1..]) + rest;
      Shift(Encode(ws[0]), Answers(ws[1..]), rest);
      SpeakableAlone(ws[0]);
      ReplyReadsBack(ws[0], more);
      StaysInStep(ws[1..], rest);
    }
  }

  lemma SpeakableAlone(w: Wire)
    requires Speakable(w, true)
    ensures Speakable(w, false) && !w.Error?
  {
  }

  /** Commands in turn on one connection: after anything but a reply, a nil included, it is closed.
      What it has left to read, if it is still open. */
  function Talk(s: string, n: nat): (seq<Result>, Option<string>)
    decreases n
  {
    if n == 0 then ([], Some(s))
    else
      match ReadReply(s)
      case Got(reply, left) =>
        var (more, open) := Talk(left, n - 1);
        ([Got(reply, left)] + more, open)
      case r => ([r], None)
  }

  predicate ClosesIt(w: Wire) {
    w.Error? || IsNil(w)
  }

  /** What was answered up to the first error or nil, and whether there was one. */
  function Answered(ws: seq<Wire>, rest: string): (seq<Result>, Option<string>) {
    if ws == [] then ([], Some(rest))
    else
      var first := Heard(ws[0], Answers(ws[1..]) + rest);
      if ClosesIt(ws[0]) then ([first], None)
      else
        var (more, open) := Answered(ws[1..], rest);
        ([first] + more, open)
  }

  /** No caller is ever given another's answer: whatever the server says, errors and nils among it, the
      n-th command on a connection gets the n-th answer, the first error or nil is the last, and a
      connection that goes back to the pool has nothing unread but what comes later. */
  lemma {:induction false} PoolStaysInStep(ws: seq<Wire>, rest: string)
    requires forall w | w in ws :: Speakable(w, false)
    ensures Talk(Answers(ws) + rest, |ws|) == Answered(ws, rest)
    decreases |ws|
  {
    if ws == [] {
      assert Answers(ws) + rest == rest;
    } else {
      var more := Answers(ws[1..]) + rest;
      Shift(Encode(ws[0]), Answers(ws[1..]), rest);
      ReplyReadsBack(ws[0], more);
      PoolStaysInStep(ws[1..], rest);
    }
  }
}
