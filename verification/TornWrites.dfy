module TornWrites {
  // Which memories survive a disk that stops in the middle of writes, any number of times.

  import opened Wrappers
  import opened Memory
  import opened MemoryProofs

  /** An append of a record's line, of which so many characters reached the disk. */
  datatype Write = Write(r: Record, wrote: nat)

  predicate Whole(c: Codec, w: Write) {
    w.wrote > |c.render(w.r)|
  }

  function FileAfter(c: Codec, ws: seq<Write>): string {
    if ws == [] then ""
    else
      var n := |ws| - 1;
      Appended(FileAfter(c, ws[..n]), c.render(ws[n].r), ws[n].wrote)
  }

  // ---- What survives ----------------------------------------------------------------

  /** The file ends at the end of a line before the i-th write: what was last written before it was
      written whole. */
  predicate AtLineStart(c: Codec, ws: seq<Write>, i: nat)
    requires i <= |ws|
  {
    i == 0 || (if ws[i - 1].wrote == 0 then AtLineStart(c, ws, i - 1) else Whole(c, ws[i - 1]))
  }

  /** The i-th record is on a line of its own: written whole, or last and short of its newline. */
  predicate Survives(c: Codec, ws: seq<Write>, i: nat)
    requires i < |ws|
  {
    && AtLineStart(c, ws, i)
    && (Whole(c, ws[i]) || (ws[i].wrote == |c.render(ws[i].r)| && forall j | i < j < |ws| :: ws[j].wrote == 0))
  }

  function Survivors(c: Codec, ws: seq<Write>, n: nat): seq<Record>
    requires n <= |ws|
  {
    if n == 0 then []
    else if Survives(c, ws, n - 1) then Survivors(c, ws, n - 1) + [ws[n - 1].r]
    else Survivors(c, ws, n - 1)
  }

  // ---- Pieces of lines --------------------------------------------------------------

  /** The front of a record's line, its newline left out. */
  datatype Piece = Piece(r: Record, n: nat)

  function Glued(c: Codec, ps: seq<Piece>): string {
    if ps == [] then ""
    else
      var p := ps[|ps| - 1];
      Glued(c, ps[..|ps| - 1]) + if p.n < |c.render(p.r)| then c.render(p.r)[..p.n] else c.render(p.r)
  }

  ghost predicate Pieces(c: Codec, ps: seq<Piece>) {
    forall p | p in ps :: 0 < p.n <= |c.render(p.r)|
  }

  /** Records are objects: part of one, or the parts of several run together, is not a record. */
  ghost predicate NeverGlues(c: Codec) {
    forall ps: seq<Piece> | Pieces(c, ps) && (|ps| > 1 || (|ps| == 1 && ps[0].n < |c.render(ps[0].r)|)) :: c.parse(Glued(c, ps)) == None
  }

  /** What is on the line that is still open. */
  function Open(c: Codec, ws: seq<Write>): seq<Piece> {
    if ws == [] then []
    else
      var n := |ws| - 1;
      if Whole(c, ws[n]) then []
      else if ws[n].wrote == 0 then Open(c, ws[..n])
      else Open(c, ws[..n]) + [Piece(ws[n].r, ws[n].wrote)]
  }

  /** The lines that are done. */
  function Closed(c: Codec, ws: seq<Write>): seq<string> {
    if ws == [] then []
    else
      var n := |ws| - 1;
      if Whole(c, ws[n]) then Closed(c, ws[..n]) + [Glued(c, Open(c, ws[..n])) + c.render(ws[n].r)] else Closed(c, ws[..n])
  }

  function Joined(lines: seq<string>): string {
    if lines == [] then "" else lines[0] + "\n" + Joined(lines[1..])
  }

  lemma Associates<T>(a: seq<T>, b: seq<T>, c: seq<T>)
    ensures (a + b) + c == a + (b + c)
  {
  }

  lemma FrontAgain<T>(s: seq<T>, x: T)
    requires s != []
    ensures [s[0]] + s[1..] == s && [s[0]] + (s[1..] + [x]) == s + [x]
  {
  }

  lemma {:induction false} JoinedOne(lines: seq<string>, line: string, tail: string)
    ensures Joined(lines + [line]) + tail == Joined(lines) + (line + "\n" + tail)
  {
    if lines == [] {
      assert lines + [line] == [line] && [line][1..] == [];
      assert Joined([line]) + tail == line + "\n" + tail;
    } else {
      assert (lines + [line])[1..] == lines[1..] + [line];
      JoinedOne(lines[1..], line, tail);
      Associates(lines[0] + "\n", Joined(lines[1..] + [line]), tail);
      Associates(lines[0] + "\n", Joined(lines[1..]), line + "\n" + tail);
    }
  }

  lemma GluedOne(c: Codec, ps: seq<Piece>, p: Piece)
    requires 0 < p.n <= |c.render(p.r)|
    ensures Glued(c, ps + [p]) == Glued(c, ps) + c.render(p.r)[..p.n]
  {
    assert (ps + [p])[..|ps|] == ps;
    assert c.render(p.r)[..|c.render(p.r)|] == c.render(p.r);
  }

  /** The file, by its lines. */
  lemma {:induction false} FileByLines(c: Codec, ws: seq<Write>)
    ensures FileAfter(c, ws) == Joined(Closed(c, ws)) + Glued(c, Open(c, ws))
  {
    if ws != [] {
      var n := |ws| - 1;
      var w, before := ws[n], ws[..n];
      var lines, tail := Closed(c, before), Glued(c, Open(c, before));
      FileByLines(c, before);
      if Whole(c, w) {
        JoinedOne(lines, tail + c.render(w.r), "");
        assert Joined(lines) + tail + (c.render(w.r) + "\n") == Joined(lines) + (tail + c.render(w.r) + "\n" + "");
        assert Joined(lines + [tail + c.render(w.r)]) + "" == Joined(lines + [tail + c.render(w.r)]);
      } else {
        assert (c.render(w.r) + "\n")[..w.wrote] == c.render(w.r)[..w.wrote];
        if w.wrote == 0 {
          assert Joined(lines) + tail + "" == Joined(lines) + tail;
        } else {
          GluedOne(c, Open(c, before), Piece(w.r, w.wrote));
        }
      }
    }
  }

  ghost predicate NoBreaks(lines: seq<string>) {
    forall l | l in lines :: '\n' !in l
  }

  lemma {:induction false} LinesBack(lines: seq<string>, tail: string)
    requires NoBreaks(lines) && '\n' !in tail
    ensures LinesOf(Joined(lines) + tail) == if tail == "" then lines else lines + [tail]
  {
    if lines == [] {
      assert Joined(lines) + tail == tail;
      if tail != "" {
        LinesSplit(tail, "");
      }
    } else {
      assert lines[0] in lines && NoBreaks(lines[1..]);
      LinesBack(lines[1..], tail);
      LinesSplit(lines[0], Joined(lines[1..]) + tail);
      Associates(lines[0] + "\n", Joined(lines[1..]), tail);
      FrontAgain(lines, tail);
    }
  }

  lemma {:induction false} GluedLine(c: Codec, ps: seq<Piece>)
    requires Lawful(c)
    ensures '\n' !in Glued(c, ps)
    ensures Pieces(c, ps) && ps != [] ==> Glued(c, ps) != ""
  {
    if ps != [] {
      var p := ps[|ps| - 1];
      GluedLine(c, ps[..|ps| - 1]);
      assert p in ps && '\n' !in c.render(p.r);
    }
  }

  lemma {:induction false} LinesAreLines(c: Codec, ws: seq<Write>)
    requires Lawful(c)
    ensures NoBreaks(Closed(c, ws)) && Pieces(c, Open(c, ws))
  {
    if ws != [] {
      LinesAreLines(c, ws[..|ws| - 1]);
      GluedLine(c, Open(c, ws[..|ws| - 1]));
    }
  }

  // ---- What a replay makes of them --------------------------------------------------

  ghost predicate ShortLines(lines: seq<string>) {
    forall l | l in lines :: |l| < 0x10_0000
  }

  lemma {:induction false} RecordsJoin(c: Codec, a: seq<string>, line: string)
    requires ShortLines(a) && |line| < 0x10_0000
    ensures Records(c, a + [line]) == Records(c, a) + if c.parse(line).Some? then [c.parse(line).value] else []
    decreases |a|
  {
    if a == [] {
      OneLine(c, line);
      assert [] + [line] == [line];
    } else {
      assert a[0] in a && (a + [line])[1..] == a[1..] + [line] && ShortLines(a[1..]);
      RecordsJoin(c, a[1..], line);
    }
  }

  /** The records among the lines that are done. */
  function Done(c: Codec, ws: seq<Write>): seq<Record> {
    if ws == [] then []
    else
      var n := |ws| - 1;
      if Whole(c, ws[n]) && Open(c, ws[..n]) == [] then Done(c, ws[..n]) + [ws[n].r] else Done(c, ws[..n])
  }

  lemma PieceParses(c: Codec, ps: seq<Piece>)
    requires Lawful(c) && NeverGlues(c) && Pieces(c, ps) && ps != []
    ensures c.parse(Glued(c, ps)) == if Complete(c, ps) then Some(ps[0].r) else None
  {
    if |ps| == 1 {
      assert ps[0] in ps && ps[..0] == [];
      assert Glued(c, ps[..0]) + c.render(ps[0].r) == c.render(ps[0].r);
    }
  }

  lemma WholeLineParses(c: Codec, ps: seq<Piece>, r: Record)
    requires Lawful(c) && NeverGlues(c) && Pieces(c, ps)
    ensures c.parse(Glued(c, ps) + c.render(r)) == if ps == [] then Some(r) else None
  {
    var p := Piece(r, |c.render(r)|);
    assert c.render(r) != "";
    assert Pieces(c, ps + [p]) by {
      forall q | q in ps + [p]
        ensures 0 < q.n <= |c.render(q.r)|
      {
      }
    }
    GluedOne(c, ps, p);
    assert c.render(r)[..|c.render(r)|] == c.render(r);
    PieceParses(c, ps + [p]);
  }

  lemma {:induction false} DoneAreRecords(c: Codec, ws: seq<Write>)
    requires Lawful(c) && NeverGlues(c) && ShortLines(Closed(c, ws))
    ensures Records(c, Closed(c, ws)) == Done(c, ws)
  {
    if ws != [] {
      var n := |ws| - 1;
      assert forall l | l in Closed(c, ws[..n]) :: l in Closed(c, ws);
      DoneAreRecords(c, ws[..n]);
      LinesAreLines(c, ws[..n]);
      if Whole(c, ws[n]) {
        var line := Glued(c, Open(c, ws[..n])) + c.render(ws[n].r);
        assert line in Closed(c, ws);
        RecordsJoin(c, Closed(c, ws[..n]), line);
        WholeLineParses(c, Open(c, ws[..n]), ws[n].r);
      }
    }
  }

  // ---- The two accounts agree -------------------------------------------------------

  lemma {:induction false} OpenOrNot(c: Codec, ws: seq<Write>, i: nat)
    requires i <= |ws|
    ensures AtLineStart(c, ws, i) <==> Open(c, ws[..i]) == []
  {
    if i > 0 {
      OpenOrNot(c, ws, i - 1);
      assert ws[..i][..i - 1] == ws[..i - 1];
    }
  }

  /** While something is still to be written, only what was written whole counts. */
  lemma {:induction false} SurvivorsBefore(c: Codec, ws: seq<Write>, n: nat, later: nat)
    requires n <= later < |ws| && ws[later].wrote > 0
    ensures Survivors(c, ws, n) == Done(c, ws[..n])
  {
    if n > 0 {
      SurvivorsBefore(c, ws, n - 1, later);
      OpenOrNot(c, ws, n - 1);
      assert ws[..n][..n - 1] == ws[..n - 1];
    }
  }

  /** The open line is a record if nothing more is written. */
  predicate Complete(c: Codec, ps: seq<Piece>) {
    |ps| == 1 && ps[0].n == |c.render(ps[0].r)|
  }

  lemma {:induction false} SurvivorsAre(c: Codec, ws: seq<Write>, n: nat)
    requires Lawful(c) && n <= |ws| && forall j | n <= j < |ws| :: ws[j].wrote == 0
    ensures
      var ps, done := Open(c, ws[..n]), Done(c, ws[..n]);
      Survivors(c, ws, n) == if Complete(c, ps) then done + [ps[0].r] else done
  {
    if n > 0 {
      assert ws[..n][..n - 1] == ws[..n - 1];
      OpenOrNot(c, ws, n - 1);
      assert c.render(ws[n - 1].r) != "";
      if ws[n - 1].wrote == 0 {
        SurvivorsAre(c, ws, n - 1);
      } else {
        SurvivorsBefore(c, ws, n - 1, n - 1);
      }
    }
  }

  /** After any number of torn writes a replay finds, in order, exactly the records that have a line
      to themselves.  A torn write costs its own record and the next one written. */
  lemma WhatSurvives(c: Codec, ws: seq<Write>)
    requires Lawful(c) && NeverGlues(c) && ShortLines(LinesOf(FileAfter(c, ws)))
    ensures Records(c, LinesOf(FileAfter(c, ws))) == Survivors(c, ws, |ws|)
  {
    var lines, ps := Closed(c, ws), Open(c, ws);
    var tail := Glued(c, ps);
    FileByLines(c, ws);
    LinesAreLines(c, ws);
    GluedLine(c, ps);
    LinesBack(lines, tail);
    assert ShortLines(lines) by {
      assert forall l | l in lines :: l in LinesOf(FileAfter(c, ws));
    }
    DoneAreRecords(c, ws);
    SurvivorsAre(c, ws, |ws|);
    assert ws[..|ws|] == ws;
    if ps != [] {
      assert tail in LinesOf(FileAfter(c, ws));
      RecordsJoin(c, lines, tail);
      PieceParses(c, ps);
    }
  }

  // ---- Runs -------------------------------------------------------------------------

  /** What a run of the store sends to the disk. */
  function Written(c: Codec, maxDocs: nat, ops: seq<Op>): seq<Write> {
    if ops == [] then []
    else
      var n := |ops| - 1;
      match ops[n]
      case Remember(text, at, wrote) =>
        Written(c, maxDocs, ops[..n])
        + [Write(Record(Run(c, maxDocs, State(EMPTY, ""), ops[..n]).index.nextId, at, text), wrote)]
      case Restart => Written(c, maxDocs, ops[..n])
  }

  lemma {:induction false} RunWrites(c: Codec, maxDocs: nat, ops: seq<Op>)
    ensures Run(c, maxDocs, State(EMPTY, ""), ops).file == FileAfter(c, Written(c, maxDocs, ops))
  {
    if ops != [] {
      var n := |ops| - 1;
      RunWrites(c, maxDocs, ops[..n]);
      if ops[n].Remember? {
        var ws := Written(c, maxDocs, ops);
        assert ws[..|ws| - 1] == Written(c, maxDocs, ops[..n]);
      }
    }
  }

  /** So whatever the disk and the process did before, a restart holds the last of those that survived. */
  lemma RestartHoldsSurvivors(c: Codec, maxDocs: nat, ops: seq<Op>)
    requires Lawful(c) && NeverGlues(c)
    requires ShortLines(LinesOf(Run(c, maxDocs, State(EMPTY, ""), ops).file))
    ensures
      var ws := Written(c, maxDocs, ops);
      Run(c, maxDocs, State(EMPTY, ""), ops + [Restart]).index == ReplayAll(c, maxDocs, Survivors(c, ws, |ws|))
  {
    RunWrites(c, maxDocs, ops);
    WhatSurvives(c, Written(c, maxDocs, ops));
    assert (ops + [Restart])[..|ops|] == ops;
  }
}
