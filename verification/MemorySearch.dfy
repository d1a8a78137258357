/** Search returns the stable top k, by scores that are cosines.

    Sums over tokens come first, then Cauchy and Schwarz for them, then the scores and their order
    by squares, and last the ranking itself. */
module MemorySearch {
  import opened Memory
  import opened Reals

  // ---- Sums -------------------------------------------------------------------------

  lemma {:induction false} SumAgrees(ts: set<string>, f: string -> real, g: string -> real)
    requires forall t | t in ts :: f(t) == g(t)
    ensures Sum(ts, f) == Sum(ts, g)
  {
    if ts != {} {
      var t :| t in ts;
      SumPicks(ts, f, t);
      SumPicks(ts, g, t);
      SumAgrees(ts - {t}, f, g);
    }
  }

  lemma {:induction false} SumNonNegative(ts: set<string>, f: string -> real)
    requires forall t | t in ts :: f(t) >= 0.0
    ensures Sum(ts, f) >= 0.0
  {
    if ts != {} {
      var t :| t in ts;
      SumPicks(ts, f, t);
      SumNonNegative(ts - {t}, f);
    }
  }

  /** A sum of terms none of which is negative is positive exactly when some term is. */
  lemma SumPositiveIff(ts: set<string>, f: string -> real)
    requires forall t | t in ts :: f(t) >= 0.0
    ensures Sum(ts, f) > 0.0 <==> exists t :: t in ts && f(t) > 0.0
  {
    SumNonNegative(ts, f);
    if exists t :: t in ts && f(t) > 0.0 {
      var t :| t in ts && f(t) > 0.0;
      SumPicks(ts, f, t);
      SumNonNegative(ts - {t}, f);
    } else {
      SumAgrees(ts, f, t => 0.0);
      SumZero(ts);
    }
  }

  lemma {:induction false} SumZero(ts: set<string>)
    ensures Sum(ts, t => 0.0) == 0.0
  {
    if ts != {} {
      var t :| t in ts;
      SumPicks(ts, t => 0.0, t);
      SumZero(ts - {t});
    }
  }

  /** Terms that vanish outside a set only count inside it. */
  lemma {:induction false} SumWithin(ts: set<string>, us: set<string>, f: string -> real)
    requires forall t | t in ts && t !in us :: f(t) == 0.0
    requires forall t | t in us :: f(t) >= 0.0
    ensures Sum(ts, f) <= Sum(us, f)
    decreases ts
  {
    if ts == {} {
      SumNonNegative(us, f);
    } else {
      var t :| t in ts;
      SumPicks(ts, f, t);
      if t in us {
        SumPicks(us, f, t);
        SumWithin(ts - {t}, us - {t}, f);
      } else {
        SumWithin(ts - {t}, us, f);
      }
    }
  }

  // ---- Cauchy and Schwarz -----------------------------------------------------------

  /** A square at most a product. */
  predicate Bounded(a: real, p: real, q: real) {
    Times(a, a) <= Times(p, q)
  }

  /** 2af <= ph + qg whenever aa <= pq and ff <= gh. */
  lemma CrossTerm(a: real, f: real, p: real, q: real, g: real, h: real)
    requires p >= 0.0 && q >= 0.0 && g >= 0.0 && h >= 0.0
    requires Bounded(a, p, q) && Bounded(f, g, h)
    ensures 2.0 * Times(a, f) <= Times(p, h) + Times(q, g)
  {
    var u, v, w := Times(p, h), Times(q, g), Times(a, f);
    NonNegative(p, h);
    NonNegative(q, g);
    Square(a);
    Square(f);
    Swap(a, f, a, f);
    ScaleBoth(Times(a, a), Times(f, f), Times(p, q), Times(g, h));
    Commute(g, h);
    Swap(p, q, h, g);
    MeansOrder(u, v);
    Double(w);
    SquareOrder(2.0 * w, u + v);
  }

  lemma StepCauchy(a: real, f: real, p: real, q: real, g: real, h: real)
    requires p >= 0.0 && q >= 0.0 && g >= 0.0 && h >= 0.0
    requires Bounded(a, p, q) && Bounded(f, g, h)
    ensures Bounded(f + a, g + p, h + q)
  {
    CrossTerm(a, f, p, q, g, h);
    SquareOfSum(f, a);
    Commute(f, a);
    ProductOfSums(g, p, h, q);
    Commute(g, q);
  }

  /** If each term's square is at most a product of two others, so is the sum's. */
  lemma {:induction false} Cauchy(ts: set<string>, f: string -> real, g: string -> real, h: string -> real)
    requires forall t :: g(t) >= 0.0 && h(t) >= 0.0 && Bounded(f(t), g(t), h(t))
    ensures Sum(ts, g) >= 0.0 && Sum(ts, h) >= 0.0
    ensures Bounded(Sum(ts, f), Sum(ts, g), Sum(ts, h))
  {
    if ts != {} {
      var t :| t in ts;
      SumPicks(ts, f, t);
      SumPicks(ts, g, t);
      SumPicks(ts, h, t);
      Cauchy(ts - {t}, f, g, h);
      StepCauchy(Sum(ts - {t}, f), f(t), Sum(ts - {t}, g), Sum(ts - {t}, h), g(t), h(t));
    }
  }

  lemma TermBound(u: string -> real, v: string -> real, t: string)
    ensures Product(u, u)(t) >= 0.0 && Product(v, v)(t) >= 0.0
    ensures Bounded(Product(u, v)(t), Product(u, u)(t), Product(v, v)(t))
  {
    Square(u(t));
    Square(v(t));
    Swap(u(t), v(t), u(t), v(t));
  }

  /** Squares that vanish outside a set. */
  lemma SquaresWithin(idf: Idf, x: Index, q: map<string, nat>, ts: set<string>)
    ensures Sum(ts, Product(Weights(idf, x, q), Weights(idf, x, q))) <= Norm2(idf, x, q)
  {
    var u := Weights(idf, x, q);
    forall t
      ensures Product(u, u)(t) >= 0.0
      ensures t !in q.Keys ==> Product(u, u)(t) == 0.0
    {
      Square(u(t));
      if t !in q.Keys {
        Vanish(u(t), u(t));
      }
    }
    SumWithin(ts, q.Keys, Product(u, u));
  }

  lemma Chain(dot: real, p: real, n: real, q: real)
    requires Bounded(dot, p, n) && p <= q && n >= 0.0
    ensures Bounded(dot, q, n)
  {
    Scale(p, q, n);
  }

  /** For every question and document, the dot product squared is at most the product of the
      squared norms. */
  lemma DotBounded(idf: Idf, x: Index, q: map<string, nat>, d: map<string, nat>)
    ensures Bounded(Dot(idf, x, q, d), Norm2(idf, x, q), Norm2(idf, x, d))
    ensures Norm2(idf, x, q) >= 0.0 && Norm2(idf, x, d) >= 0.0
  {
    var u, v := Weights(idf, x, q), Weights(idf, x, d);
    var f, g, h := Product(u, v), Product(u, u), Product(v, v);
    forall t
      ensures g(t) >= 0.0 && h(t) >= 0.0 && Bounded(f(t), g(t), h(t))
    {
      TermBound(u, v, t);
    }
    Cauchy(d.Keys, f, g, h);
    SquaresWithin(idf, x, q, d.Keys);
    Chain(Sum(d.Keys, f), Sum(d.Keys, g), Sum(d.Keys, h), Norm2(idf, x, q));
  }

  // ---- Scores -----------------------------------------------------------------------

  /** A square root, wherever one is taken. */
  ghost predicate IsRoot(root: real -> real) {
    forall v | v >= 0.0 :: root(v) >= 0.0 && Times(root(v), root(v)) == v
  }

  /** The unrounded score, as the code has it, from the roots of the two norms. */
  function Score(dot: real, rootNorm: real, rootQ: real): real
    requires Times(rootNorm, rootQ) != 0.0
  {
    Over(dot, Times(rootNorm, rootQ))
  }

  lemma PositiveBound(dot: real, p: real, n: real)
    requires dot > 0.0 && p >= 0.0 && n >= 0.0 && Bounded(dot, p, n)
    ensures p > 0.0 && n > 0.0
  {
    Positive(dot, dot);
    FirstPositive(p, n);
    Commute(p, n);
    FirstPositive(n, p);
  }

  lemma RootsBound(dot: real, norm: real, qNorm: real, a: real, b: real)
    requires a > 0.0 && b > 0.0 && Times(a, a) == norm && Times(b, b) == qNorm
    requires dot > 0.0 && Bounded(dot, qNorm, norm)
    ensures Times(a, b) > 0.0 && 0.0 < Score(dot, a, b) <= 1.0
  {
    var r := Times(a, b);
    Positive(a, b);
    Swap(a, b, a, b);
    Commute(norm, qNorm);
    SquareOrder(dot, r);
    QuotientPositive(dot, r);
    QuotientAtMostOne(dot, r);
  }

  /** Every hit's score lies above 0 and at most 1. */
  lemma ScoreInUnit(idf: Idf, x: Index, q: map<string, nat>, d: map<string, nat>, root: real -> real)
    requires IsRoot(root) && Dot(idf, x, q, d) > 0.0
    ensures
      var dot, norm, qNorm := Dot(idf, x, q, d), Norm2(idf, x, d), Norm2(idf, x, q);
      && norm > 0.0 && qNorm > 0.0 && Times(root(norm), root(qNorm)) > 0.0
      && 0.0 < Score(dot, root(norm), root(qNorm)) <= 1.0
  {
    var dot, norm, qNorm := Dot(idf, x, q, d), Norm2(idf, x, d), Norm2(idf, x, q);
    DotBounded(idf, x, q, d);
    PositiveBound(dot, qNorm, norm);
    RootsBound(dot, norm, qNorm, root(norm), root(qNorm));
  }

  /** A document is a hit exactly when it shares a token with the question. */
  lemma HitIffShares(idf: Idf, x: Index, q: map<string, nat>, d: map<string, nat>)
    requires Favours(idf) && x.docs != []
    requires forall t | t in q :: q[t] > 0
    requires forall t | t in d :: d[t] > 0
    ensures Dot(idf, x, q, d) > 0.0 <==> exists t :: t in q && t in d
  {
    var f := Product(Weights(idf, x, q), Weights(idf, x, d));
    forall t
      ensures f(t) >= 0.0
      ensures f(t) > 0.0 <==> t in q && t in d
    {
      ProductSign(Weight(idf, x, q, t), Weight(idf, x, d, t));
    }
    SumPositiveIff(d.Keys, f);
  }

  lemma ProductSign(a: real, b: real)
    requires a >= 0.0 && b >= 0.0
    ensures Times(a, b) >= 0.0 && (Times(a, b) > 0.0 <==> a > 0.0 && b > 0.0)
  {
    NonNegative(a, b);
    if a > 0.0 && b > 0.0 {
      Positive(a, b);
    } else if a == 0.0 {
      Vanish(a, b);
    } else {
      Vanish(b, a);
      Commute(a, b);
    }
  }

  /** The order of the ranks is the order of the scores. */
  lemma RankOrdersScores(root: real -> real, a: real, m: real, b: real, n: real, qNorm: real)
    requires IsRoot(root) && a > 0.0 && b > 0.0 && m > 0.0 && n > 0.0 && qNorm > 0.0
    ensures Times(root(m), root(qNorm)) > 0.0 && Times(root(n), root(qNorm)) > 0.0
    ensures Score(a, root(m), root(qNorm)) > Score(b, root(n), root(qNorm)) <==> Rank(a, m) > Rank(b, n)
  {
    Positive(root(m), root(qNorm));
    Positive(root(n), root(qNorm));
    var s, r := Over(a, root(m)), Over(b, root(n));
    QuotientSquared(a, root(m), m);
    QuotientSquared(b, root(n), n);
    SplitQuotient(a, root(m), root(qNorm));
    SplitQuotient(b, root(n), root(qNorm));
    QuotientOrder(s, r, root(qNorm));
    SquareOrderStrict(s, r);
  }

  lemma QuotientSquared(a: real, r: real, m: real)
    requires a > 0.0 && r > 0.0 && m > 0.0 && Times(r, r) == m
    ensures Over(a, r) > 0.0 && Times(Over(a, r), Over(a, r)) == Rank(a, m)
  {
    var s := Over(a, r);
    QuotientPositive(a, r);
    Undo(a, r);
    Swap(s, r, s, r);
    QuotientUnique(Times(a, a), m, Times(s, s));
  }

  lemma SplitQuotient(a: real, r: real, k: real)
    requires r > 0.0 && k > 0.0
    ensures Times(r, k) > 0.0 && Over(a, Times(r, k)) == Over(Over(a, r), k)
  {
    var s := Over(Over(a, r), k);
    Positive(r, k);
    Undo(a, r);
    Undo(Over(a, r), k);
    Associate(s, k, r);
    Commute(k, r);
    QuotientUnique(a, Times(r, k), s);
  }

  // ---- The ranking ------------------------------------------------------------------

  ghost predicate InPlace(hs: seq<Hit>) {
    forall i, j | 0 <= i < j < |hs| :: hs[i].at < hs[j].at
  }

  /** Each place gives at most one hit, its own. */
  ghost predicate OneEach(f: nat -> seq<Hit>) {
    forall i: nat :: |f(i)| <= 1 && forall h | h in f(i) :: h.at == i
  }

  lemma HitsOneEach(idf: Idf, x: Index, q: map<string, nat>)
    ensures OneEach(HitsAt(idf, x, q))
  {
  }

  lemma {:induction false} GatherInPlace(f: nat -> seq<Hit>, n: nat)
    requires OneEach(f)
    ensures InPlace(Gather(f, n)) && forall h | h in Gather(f, n) :: h.at < n
  {
    if n > 0 {
      GatherInPlace(f, n - 1);
    }
  }

  lemma {:induction false} PlaceSplits(hs: seq<Hit>, h: Hit)
    requires Ranked(hs)
    ensures forall i | 0 <= i < Place(hs, h) :: hs[i].rank >= h.rank
    ensures forall i | Place(hs, h) <= i < |hs| :: hs[i].rank < h.rank
  {
    if hs != [] && hs[|hs| - 1].rank < h.rank {
      PlaceSplits(hs[..|hs| - 1], h);
    }
  }

  lemma InsertBag(hs: seq<Hit>, h: Hit, n: nat)
    requires n <= |hs|
    ensures multiset(Insert(hs, h, n)) == multiset(hs) + multiset{h}
  {
    assert hs == hs[..n] + hs[n..];
  }

  lemma AllEarlier(hs: seq<Hit>, bag: seq<Hit>, at: nat)
    requires multiset(hs) == multiset(bag) && forall h | h in bag :: h.at < at
    ensures forall i | 0 <= i < |hs| :: hs[i].at < at
  {
    forall i | 0 <= i < |hs|
      ensures hs[i].at < at
    {
      assert hs[i] in multiset(hs);
      assert hs[i] in multiset(bag);
    }
  }

  /** The sort is a permutation, best first, equals in the order they stood. */
  lemma {:induction false} SortRanks(hs: seq<Hit>)
    requires InPlace(hs)
    ensures Ranked(Sorted(hs)) && multiset(Sorted(hs)) == multiset(hs)
  {
    if hs != [] {
      var n := |hs| - 1;
      var s, h := Sorted(hs[..n]), hs[n];
      SortRanks(hs[..n]);
      AllEarlier(s, hs[..n], h.at);
      PlaceSplits(s, h);
      InsertBag(s, h, Place(s, h));
      assert hs == hs[..n] + [h];
    }
  }

  /** Only one list is ranked and has these hits, so any stable sort gives this one. */
  lemma {:induction false} RankingUnique(a: seq<Hit>, b: seq<Hit>)
    requires Ranked(a) && Ranked(b) && multiset(a) == multiset(b)
    ensures a == b
    decreases |a|
  {
    assert |multiset(a)| == |a| && |multiset(b)| == |b|;
    if a != [] {
      FirstIsFirst(a, b);
      assert a == [a[0]] + a[1..] && b == [b[0]] + b[1..];
      assert multiset(a[1..]) == multiset(a) - multiset{a[0]};
      assert multiset(b[1..]) == multiset(b) - multiset{b[0]};
      RankingUnique(a[1..], b[1..]);
    }
  }

  lemma FirstIsFirst(a: seq<Hit>, b: seq<Hit>)
    requires Ranked(a) && Ranked(b) && multiset(a) == multiset(b) && a != [] && b != []
    ensures a[0] == b[0]
  {
    assert a[0] in multiset(b) && b[0] in multiset(a);
    assert a[0] in b && b[0] in a;
    var i :| 0 <= i < |b| && b[i] == a[0];
    var j :| 0 <= j < |a| && a[j] == b[0];
  }

  lemma TopOfSorted(hits: seq<Hit>, k: int)
    requires InPlace(hits)
    ensures
      var top, limit := Top(Sorted(hits), k), if k <= 0 then 5 else k;
      && |top| == (if limit < |hits| then limit else |hits|)
      && Ranked(top) && multiset(top) <= multiset(hits)
      && forall g, h | g in top && h in multiset(hits) - multiset(top) :: Ahead(g, h)
  {
    SortRanks(hits);
    var sorted := Sorted(hits);
    assert |multiset(sorted)| == |sorted| && |multiset(hits)| == |hits|;
    Cut(sorted, |Top(sorted, k)|);
  }

  /** Cut a ranked list anywhere: the front is ahead of all that is left. */
  lemma Cut(s: seq<Hit>, n: nat)
    requires Ranked(s) && n <= |s|
    ensures Ranked(s[..n]) && multiset(s[..n]) <= multiset(s)
    ensures forall g, h | g in s[..n] && h in multiset(s) - multiset(s[..n]) :: Ahead(g, h)
  {
    assert s == s[..n] + s[n..];
    assert multiset(s) == multiset(s[..n]) + multiset(s[n..]);
    forall g, h | g in s[..n] && h in multiset(s) - multiset(s[..n])
      ensures Ahead(g, h)
    {
      assert h in s[n..];
      var i :| 0 <= i < n && s[i] == g;
      var j :| n <= j < |s| && s[j] == h;
    }
  }

  /** Search: as many hits as there are, up to k; ranked; and every hit left out is behind every
      one returned. */
  lemma SearchReturnsTopK(idf: Idf, x: Index, q: map<string, nat>, k: int)
    requires q != map[]
    ensures
      var hits, top, limit := HitsIn(idf, x, q), Best(idf, x, q, k), if k <= 0 then 5 else k;
      && |top| == (if limit < |hits| then limit else |hits|)
      && Ranked(top) && multiset(top) <= multiset(hits)
      && forall g, h | g in top && h in multiset(hits) - multiset(top) :: Ahead(g, h)
  {
    HitsOneEach(idf, x, q);
    GatherInPlace(HitsAt(idf, x, q), |x.docs|);
    TopOfSorted(HitsIn(idf, x, q), k);
  }

  lemma {:induction false} GatherComplete(f: nat -> seq<Hit>, n: nat, i: nat)
    requires OneEach(f) && i < n
    ensures (exists h :: h in Gather(f, n) && h.at == i) <==> f(i) != []
  {
    GatherInPlace(f, n - 1);
    GatherNext(f, n - 1);
    if i < n - 1 {
      GatherComplete(f, n - 1, i);
    }
    WhoseHit(Gather(f, n - 1), f(n - 1), n - 1, i);
  }

  lemma WhoseHit(before: seq<Hit>, last: seq<Hit>, n: nat, i: nat)
    requires forall h | h in before :: h.at < n
    requires forall h | h in last :: h.at == n
    requires i <= n
    ensures (exists h :: h in before + last && h.at == i)
            <==> if i < n then exists h :: h in before && h.at == i else last != []
  {
    if i == n && last != [] {
      assert last[0] in last && last[0] in before + last;
    }
    if i < n && exists h :: h in before && h.at == i {
      var h :| h in before && h.at == i;
      assert h in before + last;
    }
  }

  /** The hits are exactly the documents that share a token with the question. */
  lemma HitsAreShared(idf: Idf, x: Index, q: map<string, nat>, i: nat)
    requires i < |x.docs| && Favours(idf)
    requires forall t | t in q :: q[t] > 0
    requires forall t | t in x.docs[i].tf :: x.docs[i].tf[t] > 0
    ensures (exists h :: h in HitsIn(idf, x, q) && h.at == i) <==> exists t :: t in q && t in x.docs[i].tf
  {
    HitsOneEach(idf, x, q);
    GatherComplete(HitsAt(idf, x, q), |x.docs|, i);
    HitAtIff(idf, x, q, i);
    HitIffShares(idf, x, q, x.docs[i].tf);
  }

  lemma HitAtIff(idf: Idf, x: Index, q: map<string, nat>, i: nat)
    requires i < |x.docs|
    ensures HitsAt(idf, x, q)(i) != [] <==> Dot(idf, x, q, x.docs[i].tf) > 0.0
  {
    SharedNorm(idf, x, q, x.docs[i].tf);
  }

  lemma SharedNorm(idf: Idf, x: Index, q: map<string, nat>, d: map<string, nat>)
    ensures Dot(idf, x, q, d) > 0.0 ==> Norm2(idf, x, d) > 0.0
  {
    var dot := Dot(idf, x, q, d);
    DotBounded(idf, x, q, d);
    if dot > 0.0 {
      PositiveBound(dot, Norm2(idf, x, q), Norm2(idf, x, d));
    }
  }
}
