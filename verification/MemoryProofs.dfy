/** The index agrees with recomputation, and the file with the index. */
module MemoryProofs {
  import opened Lines
  import opened Wrappers
  import opened Memory

  // ---- Document frequencies ---------------------------------------------------------

  /** How many documents hold a token. */
  function Count(docs: seq<Doc>, t: string): nat {
    if docs == [] then 0
    else Count(docs[..|docs| - 1], t) + if t in docs[|docs| - 1].tf then 1 else 0
  }

  lemma {:induction false} CountFirst(docs: seq<Doc>, t: string)
    requires docs != []
    ensures Count(docs, t) == Count(docs[1..], t) + if t in docs[0].tf then 1 else 0
  {
    var n := |docs| - 1;
    if n > 0 {
      CountFirst(docs[..n], t);
      assert docs[1..][..n - 1] == docs[..n][1..];
    }
  }

  /** The counts are what counting the live documents afresh would give, and none is zero. */
  ghost predicate Exact(x: Index) {
    && (forall t :: Get(x.df, t) == Count(x.docs, t))
    && (forall t | t in x.df :: x.df[t] > 0)
  }

  lemma IndexedExact(x: Index, maxDocs: nat, doc: Doc)
    requires Exact(x)
    ensures Exact(Indexed(x, maxDocs, doc))
  {
    var docs, df := x.docs + [doc], Counted(x.df, doc.tf.Keys);
    assert docs[..|x.docs|] == x.docs;
    forall t
      ensures Get(df, t) == Count(docs, t)
      ensures Get(Uncounted(df, docs[0].tf.Keys), t) == Count(docs[1..], t)
    {
      CountFirst(docs, t);
    }
  }

  // ---- Runs -------------------------------------------------------------------------

  datatype Op = Remember(text: string, at: int, wrote: nat) | Restart

  datatype State = State(index: Index, file: string)

  function Step(c: Codec, maxDocs: nat, s: State, op: Op): State {
    match op
    case Remember(text, at, wrote) =>
      var r := Record(s.index.nextId, at, text);
      State(Indexed(s.index, maxDocs, DocOf(c, r)).(nextId := r.id + 1), Appended(s.file, c.render(r), wrote))
    case Restart => State(Loaded(c, maxDocs, s.file), s.file)
  }

  function Run(c: Codec, maxDocs: nat, s: State, ops: seq<Op>): State {
    if ops == [] then s else Step(c, maxDocs, Run(c, maxDocs, s, ops[..|ops| - 1]), ops[|ops| - 1])
  }

  lemma {:induction false} ReplayExact(c: Codec, maxDocs: nat, rs: seq<Record>)
    ensures Exact(ReplayAll(c, maxDocs, rs)) && |ReplayAll(c, maxDocs, rs).docs| <= maxDocs
  {
    if rs != [] {
      ReplayExact(c, maxDocs, rs[..|rs| - 1]);
      IndexedExact(ReplayAll(c, maxDocs, rs[..|rs| - 1]), maxDocs, DocOf(c, rs[|rs| - 1]));
    }
  }

  /** Through any run, whatever the disk does and however often the process restarts on
      whatever file, the counts are exact and the index is within its budget. */
  lemma {:induction false} AlwaysExact(c: Codec, maxDocs: nat, s: State, ops: seq<Op>)
    requires Exact(s.index) && |s.index.docs| <= maxDocs
    ensures Exact(Run(c, maxDocs, s, ops).index) && |Run(c, maxDocs, s, ops).index.docs| <= maxDocs
  {
    if ops != [] {
      var before, last := Run(c, maxDocs, s, ops[..|ops| - 1]), ops[|ops| - 1];
      AlwaysExact(c, maxDocs, s, ops[..|ops| - 1]);
      match last
      case Remember(text, at, _) => IndexedExact(before.index, maxDocs, DocOf(c, Record(before.index.nextId, at, text)));
      case Restart => ReplayExact(c, maxDocs, Records(c, LinesOf(before.file)));
    }
  }

  // ---- Which documents --------------------------------------------------------------

  function Docs(c: Codec, rs: seq<Record>): (ds: seq<Doc>)
    ensures |ds| == |rs|
  {
    seq(|rs|, i requires 0 <= i < |rs| => Doc(rs[i], c.terms(rs[i].text)))
  }

  function Last<T>(s: seq<T>, n: nat): seq<T> {
    if |s| <= n then s else s[|s| - n..]
  }

  lemma LastAppend<T>(s: seq<T>, x: T, n: nat)
    ensures
      var more := Last(s, n) + [x];
      Last(s + [x], n) == if |more| <= n then more else more[1..]
  {
    if |s| > n {
      assert s == s[..|s| - n] + s[|s| - n..];
    }
  }

  /** Record by record, 1, 2, 3 and so on. */
  ghost predicate Numbered(rs: seq<Record>) {
    forall i | 0 <= i < |rs| :: rs[i].id == i + 1
  }

  /** A replay leaves the last documents in order, and continues the numbering. */
  lemma {:induction false} ReplayKeepsLast(c: Codec, maxDocs: nat, rs: seq<Record>)
    requires Numbered(rs)
    ensures ReplayAll(c, maxDocs, rs).docs == Last(Docs(c, rs), maxDocs)
    ensures ReplayAll(c, maxDocs, rs).nextId == |rs| + 1
  {
    if rs != [] {
      var n := |rs| - 1;
      ReplayKeepsLast(c, maxDocs, rs[..n]);
      assert Docs(c, rs) == Docs(c, rs[..n]) + [DocOf(c, rs[n])];
      LastAppend(Docs(c, rs[..n]), DocOf(c, rs[n]), maxDocs);
    }
  }

  /** Whatever a file holds, no number is given out twice: after a replay the next is 1, or one more than
      some number replayed, and above all of them. */
  lemma {:induction false} ReplayNumbers(c: Codec, maxDocs: nat, rs: seq<Record>)
    ensures
      var next := ReplayAll(c, maxDocs, rs).nextId;
      && next >= 1 && (forall i | 0 <= i < |rs| :: rs[i].id < next)
      && (next == 1 || exists i :: 0 <= i < |rs| && next == rs[i].id + 1)
  {
    if rs != [] {
      var n := |rs| - 1;
      ReplayNumbers(c, maxDocs, rs[..n]);
      var before := ReplayAll(c, maxDocs, rs[..n]).nextId;
      assert forall i | 0 <= i < n :: rs[i] == rs[..n][i];
      assert ReplayAll(c, maxDocs, rs).nextId == if rs[n].id >= before then rs[n].id + 1 else before;
    }
  }

  // ---- The file ---------------------------------------------------------------------

  /** What JSON Lines promises: a rendered record is one non-empty line that parses back. */
  ghost predicate Lawful(c: Codec) {
    && (forall r :: c.render(r) != "" && '\n' !in c.render(r) && c.parse(c.render(r)) == Some(r))
    && (forall s, t | t in c.terms(s) :: c.terms(s)[t] > 0)
  }

  function FileOf(c: Codec, rs: seq<Record>): string {
    if rs == [] then "" else FileOf(c, rs[..|rs| - 1]) + (c.render(rs[|rs| - 1]) + "\n")
  }

  ghost predicate Short(c: Codec, rs: seq<Record>) {
    forall r | r in rs :: |c.render(r)| < 0x10_0000
  }

  lemma LinesSplit(a: string, rest: string)
    requires '\n' !in a
    ensures LinesOf(a + "\n" + rest) == [a] + LinesOf(rest)
    ensures a != "" ==> LinesOf(a) == [a]
  {
    FirstLine(a, rest);
    var s := a + "\n" + rest;
    assert s[..|a|] == a && s[|a| + 1..] == rest;
    assert a[..|a|] == a;
    if rest == "" {
      assert LinesOf(s) == [a] + LinesOf("");
    }
  }

  function FileFrom(c: Codec, rs: seq<Record>): string {
    if rs == [] then "" else c.render(rs[0]) + "\n" + FileFrom(c, rs[1..])
  }

  lemma {:induction false} SameFile(c: Codec, rs: seq<Record>)
    ensures FileOf(c, rs) == FileFrom(c, rs)
  {
    if rs != [] {
      var n := |rs| - 1;
      SameFile(c, rs[..n]);
      FileFromEnd(c, rs[..n], rs[n]);
      assert rs[..n] + [rs[n]] == rs;
    }
  }

  lemma {:induction false} FileFromEnd(c: Codec, rs: seq<Record>, r: Record)
    ensures FileFrom(c, rs + [r]) == FileFrom(c, rs) + (c.render(r) + "\n")
  {
    if rs == [] {
      assert FileFrom(c, [r]) == c.render(r) + "\n" + "";
    } else {
      FileFromEnd(c, rs[1..], r);
      assert (rs + [r])[1..] == rs[1..] + [r];
    }
  }

  /** Where the first line too long for the scanner is. */
  function FirstLong(c: Codec, rs: seq<Record>): (n: nat)
    ensures n <= |rs|
    ensures forall i | 0 <= i < n :: |c.render(rs[i])| < 0x10_0000
    ensures n < |rs| ==> |c.render(rs[n])| >= 0x10_0000
  {
    if rs == [] || |c.render(rs[0])| >= 0x10_0000 then 0 else 1 + FirstLong(c, rs[1..])
  }

  /** A replay finds every record up to the first that is too long, and, if none is, whatever
      follows. */
  lemma {:induction false} RecordsOfFile(c: Codec, rs: seq<Record>, tail: string)
    requires Lawful(c)
    ensures Records(c, LinesOf(FileFrom(c, rs) + tail))
            == if FirstLong(c, rs) < |rs| then rs[..FirstLong(c, rs)] else rs + Records(c, LinesOf(tail))
    decreases |rs|
  {
    if rs == [] {
      assert FileFrom(c, rs) + tail == tail;
      assert rs + Records(c, LinesOf(tail)) == Records(c, LinesOf(tail));
    } else {
      var more := FileFrom(c, rs[1..]) + tail;
      assert FileFrom(c, rs) + tail == c.render(rs[0]) + "\n" + more;
      LinesSplit(c.render(rs[0]), more);
      RecordsOfFile(c, rs[1..], tail);
      Rejoin(rs, FirstLong(c, rs[1..]), Records(c, LinesOf(tail)));
    }
  }

  lemma Rejoin<T>(s: seq<T>, n: nat, more: seq<T>)
    requires s != [] && n < |s|
    ensures [s[0]] + s[1..][..n] == s[..n + 1]
    ensures [s[0]] + (s[1..] + more) == s + more
  {
  }

  lemma WholeFile(c: Codec, rs: seq<Record>)
    requires Lawful(c)
    ensures Records(c, LinesOf(FileOf(c, rs))) == rs[..FirstLong(c, rs)]
    ensures Short(c, rs) <==> FirstLong(c, rs) == |rs|
  {
    SameFile(c, rs);
    RecordsOfFile(c, rs, "");
    assert FileFrom(c, rs) + "" == FileFrom(c, rs);
    assert Records(c, LinesOf("")) == [] && rs + [] == rs == rs[..|rs|];
    if FirstLong(c, rs) < |rs| {
      assert rs[FirstLong(c, rs)] in rs;
    }
  }

  /** A fully written file rebuilds the same documents, counts and next id exactly when every
      line is short enough for the scanner. */
  lemma RebuildsIff(c: Codec, maxDocs: nat, rs: seq<Record>)
    requires Lawful(c) && Numbered(rs)
    ensures Loaded(c, maxDocs, FileOf(c, rs)) == ReplayAll(c, maxDocs, rs) <==> Short(c, rs)
    ensures Loaded(c, maxDocs, FileOf(c, rs)).nextId == FirstLong(c, rs) + 1
  {
    WholeFile(c, rs);
    var n := FirstLong(c, rs);
    ReplayKeepsLast(c, maxDocs, rs[..n]);
    ReplayKeepsLast(c, maxDocs, rs);
    assert n == |rs| ==> rs[..n] == rs;
  }

  /** The records of a run, as first numbered. */
  function Said(ops: seq<Op>): (rs: seq<Record>)
    ensures forall i | 0 <= i < |rs| :: rs[i].id == i + 1
  {
    if ops == [] then []
    else
      var before, last := Said(ops[..|ops| - 1]), ops[|ops| - 1];
      if last.Remember? then before + [Record(|before| + 1, last.at, last.text)] else before
  }

  /** Every append reached the disk whole. */
  ghost predicate Durable(c: Codec, ops: seq<Op>) {
    forall i | 0 <= i < |ops| && ops[i].Remember? :: forall id :: ops[i].wrote > |c.render(Record(id, ops[i].at, ops[i].text))|
  }

  lemma ReplayNext(c: Codec, maxDocs: nat, rs: seq<Record>, at: int, text: string)
    requires Numbered(rs)
    ensures
      var x, r := ReplayAll(c, maxDocs, rs), Record(|rs| + 1, at, text);
      && x.nextId == r.id
      && ReplayAll(c, maxDocs, rs + [r]) == Indexed(x, maxDocs, DocOf(c, r)).(nextId := r.id + 1)
  {
    ReplayKeepsLast(c, maxDocs, rs);
    ReplayMore(c, maxDocs, rs, Record(|rs| + 1, at, text));
  }

  /** Restarts are invisible.  When appends reach the disk and no line is too long, any run with
      restarts anywhere leaves the index that remembering the same texts in one go would: the
      last documents in order, exact counts, and the next number. */
  lemma {:induction false} RestartsInvisible(c: Codec, maxDocs: nat, ops: seq<Op>)
    requires Lawful(c) && Durable(c, ops) && Short(c, Said(ops))
    ensures Run(c, maxDocs, State(EMPTY, ""), ops) == State(ReplayAll(c, maxDocs, Said(ops)), FileOf(c, Said(ops)))
  {
    if ops != [] {
      var n := |ops| - 1;
      var rs := Said(ops[..n]);
      assert forall r :: r in rs ==> r in Said(ops);
      RestartsInvisible(c, maxDocs, ops[..n]);
      match ops[n]
      case Remember(text, at, wrote) =>
        ReplayNext(c, maxDocs, rs, at, text);
      case Restart => RebuildsIff(c, maxDocs, rs);
    }
  }

  lemma RunKeepsLast(c: Codec, maxDocs: nat, ops: seq<Op>)
    requires Lawful(c) && Durable(c, ops) && Short(c, Said(ops))
    ensures
      var x := Run(c, maxDocs, State(EMPTY, ""), ops).index;
      && x.docs == Last(Docs(c, Said(ops)), maxDocs) && x.nextId == |Said(ops)| + 1
      && forall t :: Get(x.df, t) == Count(Last(Docs(c, Said(ops)), maxDocs), t)
  {
    RestartsInvisible(c, maxDocs, ops);
    ReplayKeepsLast(c, maxDocs, Said(ops));
    ReplayExact(c, maxDocs, Said(ops));
  }

  /** A line too long to read back takes every later record with it, and the id it was stored
      under is the next one given out. */
  lemma LongLineReusesId(c: Codec, maxDocs: nat, rs: seq<Record>)
    requires Lawful(c) && Numbered(rs) && !Short(c, rs)
    ensures FirstLong(c, rs) < |rs|
    ensures Records(c, LinesOf(FileOf(c, rs))) == rs[..FirstLong(c, rs)]
    ensures Loaded(c, maxDocs, FileOf(c, rs)).nextId == rs[FirstLong(c, rs)].id
  {
    WholeFile(c, rs);
    RebuildsIff(c, maxDocs, rs);
  }

  // ---- A torn append ----------------------------------------------------------------

  /** A record object cut short, or run into by another, is not a record. */
  ghost predicate SelfDelimiting(c: Codec) {
    && (forall r, n: nat | 0 < n < |c.render(r)| :: c.parse(c.render(r)[..n]) == None)
    && (forall r, q, n: nat | 0 < n <= |c.render(r)| :: c.parse(c.render(r)[..n] + c.render(q)) == None)
  }

  /** A crash in the middle of an append leaves a line without its newline.  The next append goes
      on the same line, and the replay after it finds neither record: unless nothing at all
      was written, a half-written line costs two memories, not one. */
  lemma TornAppendCostsTwo(c: Codec, rs: seq<Record>, r: Record, q: Record, n: nat)
    requires Lawful(c) && SelfDelimiting(c) && Short(c, rs)
    requires n <= |c.render(r)| && n + |c.render(q)| < 0x10_0000
    ensures
      var torn := Appended(FileOf(c, rs), c.render(r), n);
      var file := Appended(torn, c.render(q), |c.render(q)| + 1);
      Records(c, LinesOf(file)) == if n == 0 then rs + [q] else rs
  {
    var tail := c.render(r)[..n] + c.render(q);
    TornFile(FileOf(c, rs), c.render(r), c.render(q), n);
    SameFile(c, rs);
    WholeFile(c, rs);
    RecordsOfFile(c, rs, tail + "\n" + "");
    LinesSplit(tail, "");
    assert [tail] + LinesOf("") == [tail];
    OneLine(c, tail);
    if n == 0 {
      assert tail == c.render(q);
    } else {
      assert rs + [] == rs;
    }
  }

  lemma TornFile(f: string, r: string, q: string, n: nat)
    requires n <= |r|
    ensures Appended(Appended(f, r, n), q, |q| + 1) == f + (r[..n] + q + "\n" + "")
  {
    assert (r + "\n")[..n] == r[..n];
  }

  lemma OneLine(c: Codec, line: string)
    requires |line| < 0x10_0000
    ensures Records(c, [line]) == if c.parse(line).Some? then [c.parse(line).value] else []
  {
    assert [line][1..] == [];
    assert Records(c, []) == [];
  }
}
