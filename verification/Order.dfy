/** Names in byte order, which is how the operator sorts its objects. */
module Order {

  predicate Less(a: string, b: string) {
    if b == "" then false
    else if a == "" then true
    else a[0] < b[0] || (a[0] == b[0] && Less(a[1..], b[1..]))
  }

  /** At the first place where two names differ, one is there and smaller; or one name ends there. */
  ghost predicate DiffersAt(a: string, b: string, i: nat) {
    i <= |a| && i < |b| && a[..i] == b[..i] && (i < |a| ==> a[i] < b[i])
  }

  /** Which is the order of dictionaries. */
  lemma {:induction false} LessIff(a: string, b: string)
    ensures Less(a, b) <==> exists i: nat :: DiffersAt(a, b, i)
    decreases |a|
  {
    if a == "" {
      assert b != "" ==> DiffersAt(a, b, 0);
    } else if b != "" {
      LessIff(a[1..], b[1..]);
      if Less(a, b) {
        if a[0] < b[0] {
          assert DiffersAt(a, b, 0);
        } else {
          var i: nat :| DiffersAt(a[1..], b[1..], i);
          assert a[..i + 1] == [a[0]] + a[1..][..i] && b[..i + 1] == [b[0]] + b[1..][..i];
          assert DiffersAt(a, b, i + 1);
        }
      }
      if exists i: nat :: DiffersAt(a, b, i) {
        var i: nat :| DiffersAt(a, b, i);
        if i > 0 {
          assert a[..i][0] == b[..i][0];
          assert a[1..][..i - 1] == a[..i][1..] && b[1..][..i - 1] == b[..i][1..];
          assert DiffersAt(a[1..], b[1..], i - 1);
        }
      }
    }
  }

  lemma {:induction false} LessTransitive(a: string, b: string, c: string)
    requires Less(a, b) && Less(b, c)
    ensures Less(a, c)
  {
    if a != "" && a[0] == b[0] == c[0] {
      LessTransitive(a[1..], b[1..], c[1..]);
    }
  }

  lemma {:induction false} LessTotal(a: string, b: string)
    ensures Less(a, b) || a == b || Less(b, a)
  {
    if a != "" && b != "" && a[0] == b[0] {
      LessTotal(a[1..], b[1..]);
      assert a == [a[0]] + a[1..] && b == [b[0]] + b[1..];
    }
  }

  lemma {:induction false} LessIrreflexive(a: string)
    ensures !Less(a, a)
  {
    if a != "" {
      LessIrreflexive(a[1..]);
    }
  }

  ghost predicate Sorted(ks: seq<string>) {
    forall i, j | 0 <= i < j < |ks| :: Less(ks[i], ks[j])
  }

  function Elements(ks: seq<string>): set<string> {
    set k | k in ks
  }

  /** Where a name belongs among sorted ones. */
  function Rank(ks: seq<string>, k: string): (n: nat)
    ensures n <= |ks|
  {
    if ks == [] || Less(k, ks[0]) then 0 else 1 + Rank(ks[1..], k)
  }

  function Insert(ks: seq<string>, k: string): seq<string> {
    ks[..Rank(ks, k)] + [k] + ks[Rank(ks, k)..]
  }

  lemma {:induction false} RankSplits(ks: seq<string>, k: string)
    requires Sorted(ks) && k !in ks
    ensures forall i | 0 <= i < Rank(ks, k) :: Less(ks[i], k)
    ensures forall i | Rank(ks, k) <= i < |ks| :: Less(k, ks[i])
  {
    if ks != [] {
      LessTotal(k, ks[0]);
      if Less(k, ks[0]) {
        forall i | 0 <= i < |ks|
          ensures Less(k, ks[i])
        {
          if i > 0 {
            LessTransitive(k, ks[0], ks[i]);
          }
        }
      } else {
        RankSplits(ks[1..], k);
      }
    }
  }

  lemma InsertSorted(ks: seq<string>, k: string)
    requires Sorted(ks) && k !in ks
    ensures Sorted(Insert(ks, k)) && Elements(Insert(ks, k)) == Elements(ks) + {k}
  {
    RankSplits(ks, k);
    var n, r := Rank(ks, k), Insert(ks, k);
    forall i, j | 0 <= i < j < |r|
      ensures Less(r[i], r[j])
    {
      assert r[i] == if i < n then ks[i] else if i == n then k else ks[i - 1];
      assert r[j] == if j < n then ks[j] else if j == n then k else ks[j - 1];
    }
  }

  /** Two sorted lists of the same names are the same list. */
  lemma {:induction false} SortedUnique(a: seq<string>, b: seq<string>)
    requires Sorted(a) && Sorted(b) && Elements(a) == Elements(b)
    ensures a == b
    decreases |a|
  {
    if b != [] {
      assert b[0] in Elements(b);
    }
    if a != [] {
      assert a[0] in Elements(a) && (b == [] ==> Elements(b) == {});
      LeastIsFirst(a, b);
      LeastIsFirst(b, a);
      if a[0] != b[0] {
        LessTransitive(a[0], b[0], a[0]);
        LessIrreflexive(a[0]);
      }
      TailElements(a);
      TailElements(b);
      SortedUnique(a[1..], b[1..]);
    }
  }

  lemma LeastIsFirst(a: seq<string>, b: seq<string>)
    requires Sorted(a) && a != [] && b != [] && Elements(a) == Elements(b)
    ensures a[0] == b[0] || Less(a[0], b[0])
  {
    assert b[0] in Elements(a);
    var i :| 0 <= i < |a| && a[i] == b[0];
  }

  lemma TailElements(a: seq<string>)
    requires Sorted(a) && a != []
    ensures Elements(a[1..]) == Elements(a) - {a[0]}
  {
    LessIrreflexive(a[0]);
    assert forall x :: x in a <==> x == a[0] || x in a[1..];
    assert forall i | 0 < i < |a| :: a[i] != a[0];
  }

  /** The names of a set, sorted. */
  ghost function InOrder(names: set<string>): (ks: seq<string>)
    ensures Sorted(ks) && Elements(ks) == names
    ensures forall k :: k in ks <==> k in names
  {
    if names == {} then []
    else
      var k :| k in names;
      var rest := InOrder(names - {k});
      assert k !in Elements(rest);
      InsertSorted(rest, k);
      assert forall x :: x in Insert(rest, k) <==> x in Elements(Insert(rest, k));
      Insert(rest, k)
  }

  /** Collect the names in whatever order they come, and sort them. */
  method SortNames(names: set<string>) returns (ks: seq<string>)
    ensures ks == InOrder(names)
  {
    ks := [];
    var todo := names;
    while todo != {}
      invariant Sorted(ks) && Elements(ks) == names - todo && todo <= names
      decreases todo
    {
      var k :| k in todo;
      assert k !in Elements(ks);
      InsertSorted(ks, k);
      ks := Insert(ks, k);
      todo := todo - {k};
    }
    SortedUnique(ks, InOrder(names));
  }
}
