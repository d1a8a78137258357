/** The incident index (internal/ai/memory.go): documents, how many of them hold each token, and
    the file they are replayed from.  Tokenising, JSON and the idf curve are parameters. */
module Memory {
  import opened Lines
  import opened Reals
  import opened Wrappers

  const MAX_LINE := 0x10_0000
  const DEFAULT_MAX_DOCS: nat := 5000
  const DEFAULT_TOP_K: nat := 5

  /** A stored record, and a document: a record with its term counts. */
  datatype Record = Record(id: int, at: int, text: string)

  datatype Doc = Doc(record: Record, tf: map<string, nat>)

  datatype Codec = Codec(
    terms: string -> map<string, nat>,
    render: Record -> string,
    parse: string -> Option<Record>)

  function DocOf(c: Codec, r: Record): Doc {
    Doc(r, c.terms(r.text))
  }

  function Get(df: map<string, nat>, t: string): nat {
    if t in df then df[t] else 0
  }

  /** Counting a document's tokens in, and out again: a count that reaches zero is dropped. */
  function Counted(df: map<string, nat>, tokens: set<string>): map<string, nat> {
    map t | t in df.Keys + tokens :: Get(df, t) + if t in tokens then 1 else 0
  }

  function Uncounted(df: map<string, nat>, tokens: set<string>): map<string, nat> {
    map t | t in df && (t in tokens ==> df[t] > 1) :: if t in tokens then df[t] - 1 else df[t]
  }

  datatype Index = Index(docs: seq<Doc>, df: map<string, nat>, nextId: int)

  const EMPTY := Index([], map[], 1)

  /** One more document; the oldest goes when there are too many. */
  function Indexed(x: Index, maxDocs: nat, doc: Doc): Index {
    var docs, df := x.docs + [doc], Counted(x.df, doc.tf.Keys);
    if |docs| <= maxDocs then x.(docs := docs, df := df)
    else x.(docs := docs[1..], df := Uncounted(df, docs[0].tf.Keys))
  }

  // ---- The file ---------------------------------------------------------------------

  /** The lines of a file; a last one without its newline is a line too. */
  function LinesOf(s: string): seq<string>
    decreases |s|
  {
    if s == "" then []
    else
      var n := LineLength(s);
      [s[..n]] + if n == |s| then [] else LinesOf(s[n + 1..])
  }

  /** The records a replay finds: bad lines are skipped, and a line that does not fit the
      scanner's buffer ends it. */
  function Records(c: Codec, lines: seq<string>): seq<Record>
    decreases |lines|
  {
    if lines == [] || |lines[0]| >= MAX_LINE then []
    else
      match c.parse(lines[0])
      case None => Records(c, lines[1..])
      case Some(r) => [r] + Records(c, lines[1..])
  }

  /** What is left of a file after its first line. */
  function After(s: string): string
    requires s != ""
  {
    var n := LineLength(s);
    if n == |s| then "" else s[n + 1..]
  }

  function Replayed(c: Codec, x: Index, maxDocs: nat, r: Record): Index {
    var y := Indexed(x, maxDocs, DocOf(c, r));
    if r.id >= y.nextId then y.(nextId := r.id + 1) else y
  }

  lemma ReplayMore(c: Codec, maxDocs: nat, rs: seq<Record>, r: Record)
    ensures ReplayAll(c, maxDocs, rs + [r]) == Replayed(c, ReplayAll(c, maxDocs, rs), maxDocs, r)
  {
    assert (rs + [r])[..|rs|] == rs;
  }

  /** The same fold from the front, on from an index. */
  function ReplayOn(c: Codec, maxDocs: nat, x: Index, rs: seq<Record>): Index
    decreases |rs|
  {
    if rs == [] then x else ReplayOn(c, maxDocs, Replayed(c, x, maxDocs, rs[0]), rs[1..])
  }

  lemma {:induction false} ReplayLast(c: Codec, maxDocs: nat, x: Index, rs: seq<Record>, r: Record)
    ensures ReplayOn(c, maxDocs, x, rs + [r]) == Replayed(c, ReplayOn(c, maxDocs, x, rs), maxDocs, r)
    decreases |rs|
  {
    if rs == [] {
      assert [r][1..] == [];
    } else {
      assert (rs + [r])[1..] == rs[1..] + [r];
      ReplayLast(c, maxDocs, Replayed(c, x, maxDocs, rs[0]), rs[1..], r);
    }
  }

  lemma {:induction false} ReplayOnIsAll(c: Codec, maxDocs: nat, rs: seq<Record>)
    ensures ReplayOn(c, maxDocs, EMPTY, rs) == ReplayAll(c, maxDocs, rs)
  {
    if rs != [] {
      var n := |rs| - 1;
      ReplayOnIsAll(c, maxDocs, rs[..n]);
      ReplayLast(c, maxDocs, EMPTY, rs[..n], rs[n]);
      assert rs[..n] + [rs[n]] == rs;
    }
  }

  function ReplayAll(c: Codec, maxDocs: nat, rs: seq<Record>): Index {
    if rs == [] then EMPTY
    else Replayed(c, ReplayAll(c, maxDocs, rs[..|rs| - 1]), maxDocs, rs[|rs| - 1])
  }

  /** What boot makes of a file. */
  function Loaded(c: Codec, maxDocs: nat, file: string): Index {
    ReplayAll(c, maxDocs, Records(c, LinesOf(file)))
  }

  /** How much of an append reaches the file: some of the line and its newline, or all of it. */
  function Appended(file: string, line: string, wrote: nat): string {
    file + (if wrote < |line| + 1 then (line + "\n")[..wrote] else line + "\n")
  }

  class Store {
    const codec: Codec
    const maxDocs: nat
    var docs: seq<Doc>
    var df: map<string, nat>
    var nextId: int
    var file: string

    function View(): Index
      reads this
    {
      Index(docs, df, nextId)
    }

    /** Boot: replay the file, which stays as it is. */
    constructor (codec: Codec, budget: int, file: string)
      ensures this.codec == codec && this.file == file
      ensures this.maxDocs == if budget <= 0 then 5000 else budget
      ensures View() == Loaded(codec, this.maxDocs, file)
    {
      this.codec, this.maxDocs, this.file := codec, if budget <= 0 then DEFAULT_MAX_DOCS else budget, file;
      docs, df, nextId := [], map[], 1;
      new;
      Load();
    }

    method Load()
      requires View() == EMPTY
      modifies this`docs, this`df, this`nextId
      ensures View() == Loaded(codec, maxDocs, file)
    {
      var rest := file;
      while rest != ""
        invariant ReplayOn(codec, maxDocs, View(), Records(codec, LinesOf(rest)))
                  == ReplayOn(codec, maxDocs, EMPTY, Records(codec, LinesOf(file)))
        decreases |rest|
      {
        var p, left, stop := NextLine(rest);
        if stop {
          break;
        }
        if p.Some? {
          ReplayRecord(p.value);
        }
        rest := left;
      }
      ReplayOnIsAll(codec, maxDocs, Records(codec, LinesOf(file)));
    }

    /** One turn of the scanner: a record, a line to skip, or the end of the replay. */
    method NextLine(rest: string) returns (p: Option<Record>, left: string, stop: bool)
      requires rest != ""
      ensures |left| < |rest|
      ensures stop ==> Records(codec, LinesOf(rest)) == []
      ensures !stop && p.None? ==> Records(codec, LinesOf(rest)) == Records(codec, LinesOf(left))
      ensures !stop && p.Some? ==> Records(codec, LinesOf(rest)) == [p.value] + Records(codec, LinesOf(left))
    {
      var line := rest[..LineLength(rest)];
      left := After(rest);
      stop := |line| >= MAX_LINE;
      p := if stop then None else codec.parse(line);
    }

    method ReplayRecord(r: Record)
      modifies this`docs, this`df, this`nextId
      ensures View() == Replayed(codec, old(View()), maxDocs, r)
    {
      Add(Doc(r, codec.terms(r.text)));
      if r.id >= nextId {
        nextId := r.id + 1;
      }
    }

    /** Index a document, count its tokens in, and count out whatever falls off. */
    method Add(doc: Doc)
      modifies this`docs, this`df
      ensures View() == Indexed(old(View()), maxDocs, doc)
    {
      docs := docs + [doc];
      CountIn(doc.tf.Keys);
      if |docs| <= maxDocs {
        return;
      }
      var oldest := docs[0];
      docs := docs[1..];
      CountOut(oldest.tf.Keys);
    }

    method CountIn(tokens: set<string>)
      modifies this`df
      ensures df == Counted(old(df), tokens)
    {
      var todo := tokens;
      ghost var done := {};
      while todo != {}
        invariant todo == tokens - done && done <= tokens
        invariant df == Counted(old(df), done)
        decreases todo
      {
        var t :| t in todo;
        df := df[t := Get(df, t) + 1];
        todo, done := todo - {t}, done + {t};
      }
      assert done == tokens;
    }

    method CountOut(tokens: set<string>)
      modifies this`df
      ensures df == Uncounted(old(df), tokens)
    {
      var todo := tokens;
      ghost var done := {};
      while todo != {}
        invariant todo == tokens - done && done <= tokens
        invariant df == Uncounted(old(df), done)
        decreases todo
      {
        var t :| t in todo;
        var n := Get(df, t) - 1;
        df := if n > 0 then df[t := n] else df - {t};
        todo, done := todo - {t}, done + {t};
      }
      assert done == tokens;
    }

    /** Index a text under the next id, and append it to the file as far as the disk allows. */
    method Remember(text: string, at: int, wrote: nat) returns (id: int)
      modifies this
      ensures id == old(nextId)
      ensures View() == Indexed(old(View()), maxDocs, DocOf(codec, Record(id, at, text))).(nextId := id + 1)
      ensures file == Appended(old(file), codec.render(Record(id, at, text)), wrote)
    {
      id := nextId;
      var r := Record(id, at, text);
      nextId := nextId + 1;
      Add(Doc(r, codec.terms(text)));
      file := Appended(file, codec.render(r), wrote);
    }

    /** The best k documents for a question; a non-positive k means five. */
    method Search(idf: Idf, query: string, k: int) returns (top: seq<Hit>)
      ensures top == Best(idf, View(), codec.terms(query), k)
    {
      var q := codec.terms(query);
      if q == map[] {
        return [];
      }
      var hits := Collect(idf, View(), q);
      top := Top(Sorted(hits), k);
    }
  }

  // ---- Search -----------------------------------------------------------------------

  /** Any positive weight of the corpus size and the token's count will do. */
  type Idf = (nat, nat) -> real

  ghost predicate Favours(idf: Idf) {
    forall n: nat, d: nat | n > 0 :: idf(n, d) > 0.0
  }

  /** A token's weight in a bag of terms; zero where it does not occur. */
  function Weight(idf: Idf, x: Index, tf: map<string, nat>, t: string): real {
    if t in tf then Times(tf[t] as real, idf(|x.docs|, Get(x.df, t))) else 0.0
  }

  /** The sum of a function over a set, taken in any order. */
  ghost function Sum(ts: set<string>, f: string -> real): real {
    if ts == {} then 0.0
    else
      var t :| t in ts;
      f(t) + Sum(ts - {t}, f)
  }

  lemma {:induction false} SumPicks(ts: set<string>, f: string -> real, t: string)
    requires t in ts
    ensures Sum(ts, f) == f(t) + Sum(ts - {t}, f)
  {
    var u :| u in ts && Sum(ts, f) == f(u) + Sum(ts - {u}, f);
    if u != t {
      SumPicks(ts - {u}, f, t);
      SumPicks(ts - {t}, f, u);
      assert ts - {u} - {t} == ts - {t} - {u};
    }
  }

  function Product(a: string -> real, b: string -> real): string -> real {
    t => Times(a(t), b(t))
  }

  function Weights(idf: Idf, x: Index, tf: map<string, nat>): string -> real {
    t => Weight(idf, x, tf, t)
  }

  ghost function Dot(idf: Idf, x: Index, q: map<string, nat>, d: map<string, nat>): real {
    Sum(d.Keys, Product(Weights(idf, x, q), Weights(idf, x, d)))
  }

  ghost function Norm2(idf: Idf, x: Index, d: map<string, nat>): real {
    Sum(d.Keys, Product(Weights(idf, x, d), Weights(idf, x, d)))
  }

  /** A match: where the document stands, and the square of its score times the query's norm,
      which orders documents as their scores do. */
  datatype Hit = Hit(at: nat, rank: real)

  function Rank(dot: real, norm: real): real
    requires norm > 0.0
  {
    Over(Times(dot, dot), norm)
  }

  ghost function HitAt(idf: Idf, x: Index, q: map<string, nat>, i: nat): seq<Hit>
    requires i < |x.docs|
  {
    var dot, norm := Dot(idf, x, q, x.docs[i].tf), Norm2(idf, x, x.docs[i].tf);
    if dot > 0.0 && norm > 0.0 then [Hit(i, Rank(dot, norm))] else []
  }

  /** One list after another, up to the n-th. */
  ghost function Gather(f: nat -> seq<Hit>, n: nat): seq<Hit> {
    if n == 0 then [] else Gather(f, n - 1) + f(n - 1)
  }

  ghost function HitsAt(idf: Idf, x: Index, q: map<string, nat>): nat -> seq<Hit> {
    (i: nat) => if i < |x.docs| then HitAt(idf, x, q, i) else []
  }

  ghost function HitsIn(idf: Idf, x: Index, q: map<string, nat>): seq<Hit> {
    Gather(HitsAt(idf, x, q), |x.docs|)
  }

  /** Better first; equals in the order they were stored. */
  predicate Ahead(a: Hit, b: Hit) {
    a.rank > b.rank || (a.rank == b.rank && a.at < b.at)
  }

  ghost predicate Ranked(hs: seq<Hit>) {
    forall i, j | 0 <= i < j < |hs| :: Ahead(hs[i], hs[j])
  }

  function Place(hs: seq<Hit>, h: Hit): (n: nat)
    ensures n <= |hs|
  {
    if hs == [] || hs[|hs| - 1].rank >= h.rank then |hs| else Place(hs[..|hs| - 1], h)
  }

  function Insert(hs: seq<Hit>, h: Hit, n: nat): seq<Hit>
    requires n <= |hs|
  {
    hs[..n] + [h] + hs[n..]
  }

  /** A stable insertion sort, one hit at a time from the front. */
  function Sorted(hs: seq<Hit>): seq<Hit> {
    if hs == [] then []
    else
      var s, h := Sorted(hs[..|hs| - 1]), hs[|hs| - 1];
      Insert(s, h, Place(s, h))
  }

  /** What one token adds to the product and to the norm: only a token in both moves the first. */
  method Contribution(idf: Idf, x: Index, q: map<string, nat>, d: map<string, nat>, t: string) returns (both: real, own: real)
    requires t in d
    ensures both == Product(Weights(idf, x, q), Weights(idf, x, d))(t)
    ensures own == Product(Weights(idf, x, d), Weights(idf, x, d))(t)
  {
    var w := Weight(idf, x, d, t);
    Vanish(0.0, w);
    own := Times(w, w);
    both := 0.0;
    if t in q {
      both := Times(Weight(idf, x, q, t), w);
    }
  }

  method Score(idf: Idf, x: Index, q: map<string, nat>, d: map<string, nat>) returns (dot: real, norm: real)
    ensures dot == Dot(idf, x, q, d) && norm == Norm2(idf, x, d)
  {
    dot, norm := 0.0, 0.0;
    var todo := d.Keys;
    ghost var both, own := Product(Weights(idf, x, q), Weights(idf, x, d)), Product(Weights(idf, x, d), Weights(idf, x, d));
    while todo != {}
      invariant todo <= d.Keys
      invariant dot + Sum(todo, both) == Sum(d.Keys, both)
      invariant norm + Sum(todo, own) == Sum(d.Keys, own)
      decreases todo
    {
      var t :| t in todo;
      SumPicks(todo, both, t);
      SumPicks(todo, own, t);
      var more, square := Contribution(idf, x, q, d, t);
      dot, norm := dot + more, norm + square;
      todo := todo - {t};
    }
  }

  method Try(idf: Idf, x: Index, q: map<string, nat>, i: nat) returns (h: seq<Hit>)
    requires i < |x.docs|
    ensures h == HitsAt(idf, x, q)(i)
  {
    var dot, norm := Score(idf, x, q, x.docs[i].tf);
    h := if dot > 0.0 && norm > 0.0 then [Hit(i, Rank(dot, norm))] else [];
  }

  lemma GatherNext(f: nat -> seq<Hit>, i: nat)
    ensures Gather(f, i + 1) == Gather(f, i) + f(i)
  {
  }

  method Collect(idf: Idf, x: Index, q: map<string, nat>) returns (hits: seq<Hit>)
    ensures hits == HitsIn(idf, x, q)
  {
    hits := [];
    ghost var f := HitsAt(idf, x, q);
    for i := 0 to |x.docs|
      invariant hits == Gather(f, i)
    {
      var h := Try(idf, x, q, i);
      GatherNext(f, i);
      hits := hits + h;
    }
  }

  function Top(hs: seq<Hit>, k: int): seq<Hit> {
    var limit := if k <= 0 then DEFAULT_TOP_K else k;
    if limit < |hs| then hs[..limit] else hs
  }

  ghost function Best(idf: Idf, x: Index, q: map<string, nat>, k: int): seq<Hit> {
    if q == map[] then [] else Top(Sorted(HitsIn(idf, x, q)), k)
  }
}
