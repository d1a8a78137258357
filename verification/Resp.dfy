/** The Redis wire protocol as the client speaks it (internal/redisclient/client.go).  A char
    stands for a byte. */
module Resp {
  import opened Lines
  import opened Wrappers

  const MIN_INT64 := -0x8000_0000_0000_0000
  const MAX_INT64 := 0x7fff_ffff_ffff_ffff

  /** What a caller gets: a string, an integer, or an array whose nils are None. */
  datatype Reply = Text(text: string) | Number(value: int) | Array(items: seq<Option<Reply>>)

  datatype Failure = EndOfStream | ShortReply | ServerError(message: string) | BadNumber | UnknownType(tag: char)

  /** One reply read, with what is left of the stream. */
  datatype Result = Got(reply: Reply, rest: string) | Nil(rest: string) | Failed(why: Failure)

  // ---- Numbers ----------------------------------------------------------------------

  predicate IsDigit(c: char) {
    '0' <= c <= '9'
  }

  function DigitOf(n: nat): char
    requires n < 10
  {
    '0' + n as char
  }

  function Digits(n: nat): (s: string)
    ensures s != ""
  {
    if n < 10 then [DigitOf(n)] else Digits(n / 10) + [DigitOf(n % 10)]
  }

  /** %d */
  function Decimal(n: int): (s: string)
    ensures s != ""
  {
    if n < 0 then "-" + Digits(-n) else Digits(n)
  }

  predicate AllDigits(s: string) {
    forall c | c in s :: IsDigit(c)
  }

  function DigitValue(c: char): nat
    requires IsDigit(c)
  {
    c as int - '0' as int
  }

  function ValueOf(s: string): nat
    requires AllDigits(s)
  {
    if s == "" then 0
    else
      assert s[|s| - 1] in s && forall c | c in s[..|s| - 1] :: c in s;
      10 * ValueOf(s[..|s| - 1]) + DigitValue(s[|s| - 1])
  }

  /** strconv.Atoi, on 64 bits: an optional sign, digits, and a value that fits. */
  function Atoi(s: string): Option<int> {
    var signed := s != "" && (s[0] == '-' || s[0] == '+');
    var digits := if signed then s[1..] else s;
    if digits == "" || !AllDigits(digits) then None
    else
      var v: int := ValueOf(digits);
      var n := if signed && s[0] == '-' then -v else v;
      if MIN_INT64 <= n <= MAX_INT64 then Some(n) else None
  }

  // ---- Writing ----------------------------------------------------------------------

  const CRLF := "\r\n"

  function Bulk(a: string): string {
    "$" + Decimal(|a|) + CRLF + a + CRLF
  }

  function Bulks(args: seq<string>): string {
    if args == [] then "" else Bulks(args[..|args| - 1]) + Bulk(args[|args| - 1])
  }

  /** A command: an array of bulk strings. */
  function Request(args: seq<string>): string {
    "*" + Decimal(|args|) + CRLF + Bulks(args)
  }

  lemma BulksNext(args: seq<string>, i: nat, head: string)
    requires i < |args|
    ensures head + Bulks(args[..i + 1]) == (head + Bulks(args[..i])) + Bulk(args[i])
  {
    assert args[..i + 1][..i] == args[..i];
  }

  method WriteRequest(args: seq<string>) returns (b: string)
    ensures b == Request(args)
  {
    ghost var head := "*" + Decimal(|args|) + CRLF;
    b := "*" + Decimal(|args|) + CRLF;
    for i := 0 to |args|
      invariant b == head + Bulks(args[..i])
    {
      BulksNext(args, i, head);
      b := b + Bulk(args[i]);
    }
    assert args[..|args|] == args;
  }

  // ---- Reading ----------------------------------------------------------------------

  /** strings.TrimRight(s, "\r\n") */
  function TrimRight(s: string): string {
    if s != "" && (s[|s| - 1] == '\r' || s[|s| - 1] == '\n') then TrimRight(s[..|s| - 1]) else s
  }

  /** The first line with its newline, tag included; None if the stream ends first. */
  function Line(s: string): (r: Option<string>)
    ensures r.Some? ==> 0 < |r.value| <= |s|
  {
    if LineLength(s) < |s| then Some(s[..LineLength(s) + 1]) else None
  }

  /** The items of an array, or why reading them stopped. */
  datatype Items = All(items: seq<Option<Reply>>, rest: string) | Stopped(why: Failure)

  function ReadReply(s: string): (r: Result)
    ensures r.Got? || r.Nil? ==> |r.rest| < |s|
    decreases |s|, 0
  {
    var line := Line(s);
    if line.None? then Failed(EndOfStream)
    else if |line.value| < 3 then Failed(ShortReply)
    else Tagged(line.value[0], TrimRight(line.value[1..]), s[|line.value|..])
  }

  /** A reply by its first line, less its line break, and what comes after. */
  function Tagged(tag: char, body: string, rest: string): (r: Result)
    ensures r.Got? || r.Nil? ==> |r.rest| <= |rest|
    decreases |rest|, 3
  {
    if tag == '+' then Got(Text(body), rest)
    else if tag == '-' then Failed(ServerError(body))
    else if tag == ':' then
      (match Atoi(body)
       case None => Failed(BadNumber)
       case Some(n) => Got(Number(n), rest))
    else if tag == '$' then BulkOf(Atoi(body), rest)
    else if tag == '*' then ArrayOf(Atoi(body), rest)
    else Failed(UnknownType(tag))
  }

  /** n bytes and a line break that nobody looks at; a negative length is a nil. */
  function BulkOf(n: Option<int>, rest: string): Result {
    if n.None? then Failed(BadNumber)
    else if n.value < 0 then Nil(rest)
    else if |rest| < n.value + 2 then Failed(EndOfStream)
    else Got(Text(rest[..n.value]), rest[n.value + 2..])
  }

  function ArrayOf(n: Option<int>, rest: string): (r: Result)
    ensures r.Got? || r.Nil? ==> |r.rest| <= |rest|
    decreases |rest|, 2
  {
    if n.None? then Failed(BadNumber)
    else if n.value < 0 then Nil(rest)
    else
      match ReadItems(rest, n.value)
      case Stopped(why) => Failed(why)
      case All(items, left) => Got(Array(items), left)
  }

  function ReadItems(s: string, n: nat): (r: Items)
    ensures r.All? ==> |r.rest| <= |s| && |r.items| == n
    decreases |s|, 1
  {
    if n == 0 then All([], s)
    else
      match ReadReply(s)
      case Failed(why) => Stopped(why)
      case Nil(rest) => Prepend(None, ReadItems(rest, n - 1))
      case Got(reply, rest) => Prepend(Some(reply), ReadItems(rest, n - 1))
  }

  function Prepend(item: Option<Reply>, more: Items): Items {
    match more
    case Stopped(why) => Stopped(why)
    case All(items, rest) => All([item] + items, rest)
  }

  /** The connection's buffered reader. */
  class Reader {
    var unread: string

    constructor (stream: string)
      ensures unread == stream
    {
      unread := stream;
    }

    /** ioReadFull: take whatever comes until there is enough, or the stream ends. */
    method ReadFull(n: nat) returns (got: string, ok: bool)
      modifies this
      ensures ok <==> n <= |old(unread)|
      ensures ok ==> got == old(unread)[..n] && unread == old(unread)[n..]
    {
      got := "";
      while |got| < n
        invariant |got| <= n && got + unread == old(unread)
        decreases n - |got|
      {
        if unread == "" {
          return got, false;
        }
        var k: nat :| 1 <= k <= |unread| && k <= n - |got|;
        assert got + unread == (got + unread[..k]) + unread[k..];
        got, unread := got + unread[..k], unread[k..];
      }
      ok := true;
    }

    method ReadLine() returns (line: Option<string>)
      modifies this
      ensures line == Line(old(unread))
      ensures line.Some? ==> unread == old(unread)[|line.value|..]
    {
      var n := LineLength(unread);
      if n == |unread| {
        return None;
      }
      line := Some(unread[..n + 1]);
      unread := unread[n + 1..];
    }

    /** Arrays nest: each item is read by the same method, from a shorter stream. */
    method ReadNext() returns (r: Result)
      modifies this
      ensures r == ReadReply(old(unread))
      ensures r.Got? || r.Nil? ==> unread == r.rest
      decreases |unread|, 0
    {
      var line := ReadLine();
      if line.None? {
        return Failed(EndOfStream);
      }
      if |line.value| < 3 {
        return Failed(ShortReply);
      }
      var tag, body := line.value[0], TrimRight(line.value[1..]);
      match tag {
        case '+' => r := Got(Text(body), unread);
        case '-' => r := Failed(ServerError(body));
        case ':' =>
          var n := Atoi(body);
          r := if n.None? then Failed(BadNumber) else Got(Number(n.value), unread);
        case '$' =>
          r := ReadBulk(Atoi(body));
        case '*' =>
          r := ReadArray(Atoi(body));
        case _ => r := Failed(UnknownType(tag));
      }
    }

    method ReadBulk(n: Option<int>) returns (r: Result)
      modifies this
      ensures r == BulkOf(n, old(unread))
      ensures r.Got? || r.Nil? ==> unread == r.rest
    {
      if n.None? {
        return Failed(BadNumber);
      }
      if n.value < 0 {
        return Nil(unread);
      }
      ghost var s := unread;
      var buf, ok := ReadFull(n.value + 2);
      if !ok {
        return Failed(EndOfStream);
      }
      assert buf[..n.value] == s[..n.value];
      r := Got(Text(buf[..n.value]), unread);
    }

    method ReadArray(n: Option<int>) returns (r: Result)
      modifies this
      ensures r == ArrayOf(n, old(unread))
      ensures r.Got? || r.Nil? ==> unread == r.rest
      decreases |unread|, 2
    {
      if n.None? {
        return Failed(BadNumber);
      }
      if n.value < 0 {
        return Nil(unread);
      }
      ghost var s := unread;
      var out: seq<Option<Reply>> := [];
      AppendNothing(out, ReadItems(unread, n.value));
      for i := 0 to n.value
        invariant |unread| <= |s|
        invariant ReadItems(s, n.value) == Append(out, ReadItems(unread, n.value - i))
      {
        var item, why := ReadItem(out, n.value - i);
        if why.Some? {
          return Failed(why.value);
        }
        out := item;
      }
      AppendNothing(out, All([], unread));
      r := Got(Array(out), unread);
    }

    /** One more item of an array that has k to go; a nil inside it is kept as one. */
    method ReadItem(out: seq<Option<Reply>>, k: nat) returns (more: seq<Option<Reply>>, why: Option<Failure>)
      requires k > 0
      modifies this
      ensures why.Some? ==> Append(out, ReadItems(old(unread), k)) == Stopped(why.value)
      ensures why.None? ==> |unread| <= |old(unread)|
      ensures why.None? ==> Append(out, ReadItems(old(unread), k)) == Append(more, ReadItems(unread, k - 1))
      decreases |unread|, 1
    {
      var item := ReadNext();
      if item.Failed? {
        return out, Some(item.why);
      }
      var value := if item.Got? then Some(item.reply) else None;
      return out + [value], None;
    }
  }

  lemma AppendNothing(out: seq<Option<Reply>>, more: Items)
    ensures out == [] ==> Append(out, more) == more
    ensures more.All? && more.items == [] ==> Append(out, more) == All(out, more.rest)
  {
    if more.All? {
      assert [] + more.items == more.items && out + [] == out;
    }
  }

  function Append(out: seq<Option<Reply>>, more: Items): Items {
    match more
    case Stopped(why) => Stopped(why)
    case All(items, rest) => All(out + items, rest)
  }
}
