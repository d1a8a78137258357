/** The first line of some text. */
module Lines {

  /** Everything before the first newline. */
  function LineLength(s: string): (n: nat)
    ensures n <= |s| && (n < |s| ==> s[n] == '\n')
    ensures forall i | 0 <= i < n :: s[i] != '\n'
  {
    if s == "" || s[0] == '\n' then 0 else 1 + LineLength(s[1..])
  }

  lemma {:induction false} FirstLine(a: string, rest: string)
    requires '\n' !in a
    ensures LineLength(a + "\n" + rest) == |a| && LineLength(a) == |a|
  {
    if a == "" {
      assert (a + "\n" + rest)[0] == '\n';
    } else {
      FirstLine(a[1..], rest);
      assert (a + "\n" + rest)[1..] == a[1..] + "\n" + rest;
    }
  }
}
