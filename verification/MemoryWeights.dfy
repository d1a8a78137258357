module MemoryWeights {
  // What a token is worth to a search: how often it occurs, and how few documents hold it.

  import opened Memory
  import opened MemoryProofs
  import opened MemorySearch
  import opened Reals

  /** The curve at the number of documents that hold the token. */
  function Rarity(idf: Idf, docs: seq<Doc>, t: string): real {
    idf(|docs|, Count(docs, t))
  }

  /** Occurrences in the question, times occurrences in the document, times the rarity squared. */
  function Shared(idf: Idf, docs: seq<Doc>, q: map<string, nat>, d: map<string, nat>): string -> real {
    t => if t in q && t in d then (q[t] * d[t]) as real * (Rarity(idf, docs, t) * Rarity(idf, docs, t)) else 0.0
  }

  lemma Regroup(a: nat, b: nat, r: real)
    ensures Times(Times(a as real, r), Times(b as real, r)) == (a * b) as real * (r * r)
  {
    Swap(a as real, r, b as real, r);
    assert a as real * b as real == (a * b) as real;
  }

  lemma TermIs(idf: Idf, x: Index, q: map<string, nat>, d: map<string, nat>, t: string)
    requires Exact(x) && t in d
    ensures Product(Weights(idf, x, q), Weights(idf, x, d))(t) == Shared(idf, x.docs, q, d)(t)
  {
    if t in q {
      Regroup(q[t], d[t], Rarity(idf, x.docs, t));
    } else {
      Vanish(0.0, Weight(idf, x, d, t));
    }
  }

  /** The product a score is made of counts each shared token by its occurrences on both sides and by
      how rare it is among the documents held; and the norm is the document's product with itself. */
  lemma DotIs(idf: Idf, x: Index, q: map<string, nat>, d: map<string, nat>)
    requires Exact(x)
    ensures Dot(idf, x, q, d) == Sum(d.Keys, Shared(idf, x.docs, q, d))
    ensures Norm2(idf, x, d) == Dot(idf, x, d, d)
  {
    forall t | t in d.Keys
      ensures Product(Weights(idf, x, q), Weights(idf, x, d))(t) == Shared(idf, x.docs, q, d)(t)
    {
      TermIs(idf, x, q, d, t);
    }
    SumAgrees(d.Keys, Product(Weights(idf, x, q), Weights(idf, x, d)), Shared(idf, x.docs, q, d));
  }

  // ---- The rarer token first --------------------------------------------------------

  /** The more documents hold a token, the less it is worth. */
  ghost predicate Falls(idf: Idf) {
    forall n: nat, a: nat, b: nat | n > 0 && a < b :: idf(n, a) > idf(n, b)
  }

  /** The document is one word, some number of times. */
  predicate Only(d: Doc, t: string) {
    d.tf.Keys == {t} && d.tf[t] > 0
  }

  lemma SumOne(t: string, f: string -> real)
    ensures Sum({t}, f) == f(t)
  {
    SumPicks({t}, f, t);
    assert {t} - {t} == {};
  }

  lemma RankOfOne(u: real, w: real)
    requires u > 0.0 && w > 0.0
    ensures Times(u, w) > 0.0 && Times(w, w) > 0.0 && Rank(Times(u, w), Times(w, w)) == Times(u, u)
  {
    Positive(u, w);
    Positive(w, w);
    Swap(u, w, u, w);
    QuotientUnique(Times(Times(u, w), Times(u, w)), Times(w, w), Times(u, u));
  }

  lemma WordIsHit(idf: Idf, x: Index, q: map<string, nat>, i: nat, t: string)
    requires Favours(idf) && i < |x.docs| && Only(x.docs[i], t) && t in q && q[t] > 0
    ensures
      var u := Weight(idf, x, q, t);
      u > 0.0 && HitsAt(idf, x, q)(i) == [Hit(i, Times(u, u))]
  {
    var d := x.docs[i].tf;
    var u, w := Weight(idf, x, q, t), Weight(idf, x, d, t);
    Positive(q[t] as real, idf(|x.docs|, Get(x.df, t)));
    Positive(d[t] as real, idf(|x.docs|, Get(x.df, t)));
    SumOne(t, Product(Weights(idf, x, q), Weights(idf, x, d)));
    SumOne(t, Product(Weights(idf, x, d), Weights(idf, x, d)));
    RankOfOne(u, w);
  }

  /** The hit of a document is among the hits. */
  lemma {:induction false} GatherHolds(f: nat -> seq<Hit>, n: nat, i: nat, h: Hit)
    requires i < n && h in f(i)
    ensures h in Gather(f, n)
  {
    if i < n - 1 {
      GatherHolds(f, n - 1, i, h);
    }
  }

  lemma HeavierFirst(n: nat, r: real, s: real)
    requires n > 0 && r > s > 0.0
    ensures Times(Times(n as real, r), Times(n as real, r)) > Times(Times(n as real, s), Times(n as real, s))
  {
    var k := n as real;
    Positive(k, r);
    Positive(k, s);
    Positive(r - s, k);
    Distribute(r - s, s, k);
    Commute(k, r);
    Commute(k, s);
    SquareOrderStrict(Times(k, r), Times(k, s));
  }

  lemma LeftOut(hits: seq<Hit>, top: seq<Hit>, g: Hit)
    requires g in hits
    ensures g in top || g in multiset(hits) - multiset(top)
  {
    assert g in multiset(hits);
  }

  /** Behind a hit of an answer stands every hit it outranks. */
  lemma OutrankedIsBehind(hits: seq<Hit>, top: seq<Hit>, g: Hit, h: Hit, b: nat)
    requires Ranked(top) && multiset(top) <= multiset(hits)
    requires forall g, h | g in top && h in multiset(hits) - multiset(top) :: Ahead(g, h)
    requires g in hits && g.rank > h.rank && b < |top| && top[b] == h
    ensures exists a :: 0 <= a < b && top[a] == g
  {
    LeftOut(hits, top, g);
    assert h in top;
    var a :| 0 <= a < |top| && top[a] == g;
    BetterIsBefore(top, a, b);
  }

  lemma BetterIsBefore(top: seq<Hit>, a: nat, b: nat)
    requires Ranked(top) && a < |top| && b < |top| && top[a].rank > top[b].rank
    ensures a < b
  {
  }

  lemma RarerOutranks(idf: Idf, x: Index, q: map<string, nat>, i: nat, j: nat, s: string, t: string) returns (g: Hit)
    requires Exact(x) && Favours(idf) && Falls(idf) && i < |x.docs| && j < |x.docs|
    requires Only(x.docs[i], s) && Only(x.docs[j], t) && s in q && t in q && q[s] == q[t] > 0
    requires Count(x.docs, s) < Count(x.docs, t)
    ensures g in HitsIn(idf, x, q) && g.at == i
    ensures forall h | h in HitsIn(idf, x, q) && h.at == j :: g.rank > h.rank
  {
    WordIsHit(idf, x, q, i, s);
    WordIsHit(idf, x, q, j, t);
    g := HitsAt(idf, x, q)(i)[0];
    HeavierFirst(q[s], Rarity(idf, x.docs, s), Rarity(idf, x.docs, t));
    GatherHolds(HitsAt(idf, x, q), |x.docs|, i, g);
    forall h | h in HitsIn(idf, x, q) && h.at == j
      ensures g.rank > h.rank
    {
      OnlyHit(idf, x, q, j, h);
    }
  }

  /** With a curve that falls, of two documents of one word each, both asked for equally often, the one
      whose word is held by fewer documents comes first, in every answer that has the other. */
  lemma RarerFirst(idf: Idf, x: Index, q: map<string, nat>, k: int, i: nat, j: nat, s: string, t: string, b: nat)
    requires Exact(x) && Favours(idf) && Falls(idf) && i < |x.docs| && j < |x.docs|
    requires Only(x.docs[i], s) && Only(x.docs[j], t) && s in q && t in q && q[s] == q[t] > 0
    requires Count(x.docs, s) < Count(x.docs, t)
    requires b < |Best(idf, x, q, k)| && Best(idf, x, q, k)[b].at == j
    ensures exists a :: 0 <= a < b && Best(idf, x, q, k)[a].at == i
  {
    var g := RarerOutranks(idf, x, q, i, j, s, t);
    TopRanked(idf, x, q, k, g, b);
  }

  lemma TopRanked(idf: Idf, x: Index, q: map<string, nat>, k: int, g: Hit, b: nat)
    requires q != map[] && g in HitsIn(idf, x, q) && b < |Best(idf, x, q, k)|
    requires forall h | h in HitsIn(idf, x, q) && h.at == Best(idf, x, q, k)[b].at :: g.rank > h.rank
    ensures exists a :: 0 <= a < b && Best(idf, x, q, k)[a] == g
  {
    var hits, top := HitsIn(idf, x, q), Best(idf, x, q, k);
    SearchReturnsTopK(idf, x, q, k);
    assert top[b] in multiset(top);
    assert top[b] in multiset(hits);
    OutrankedIsBehind(hits, top, g, top[b], b);
  }

  lemma {:induction false} FromOne(f: nat -> seq<Hit>, n: nat, h: Hit)
    requires OneEach(f) && h in Gather(f, n)
    ensures h in f(h.at)
  {
    if h in Gather(f, n - 1) {
      FromOne(f, n - 1, h);
    }
  }

  lemma OnlyHit(idf: Idf, x: Index, q: map<string, nat>, j: nat, h: Hit)
    requires h in HitsIn(idf, x, q) && h.at == j
    ensures h in HitsAt(idf, x, q)(j)
  {
    HitsOneEach(idf, x, q);
    FromOne(HitsAt(idf, x, q), |x.docs|, h);
  }
}
