/** Bitwise operators on natural numbers, digit by digit. */
module Bits {

  function And(a: nat, b: nat): (r: nat)
    ensures r <= b
  {
    if a == 0 || b == 0 then 0
    else 2 * And(a / 2, b / 2) + if a % 2 == 1 && b % 2 == 1 then 1 else 0
  }

  function Xor(a: nat, b: nat): nat {
    if a == 0 && b == 0 then 0
    else 2 * Xor(a / 2, b / 2) + if a % 2 != b % 2 then 1 else 0
  }

  /** The n-th binary digit. */
  function Digit(a: nat, n: nat): nat {
    a / Pow2(n) % 2
  }

  lemma DigitNext(a: nat, n: nat)
    ensures Digit(a, 0) == a % 2 && Digit(a, n + 1) == Digit(a / 2, n)
  {
    DivTwice(a, Pow2(n));
  }

  lemma DivTwice(a: nat, d: nat)
    requires d > 0
    ensures a / (2 * d) == a / 2 / d
  {
    var q, r := a / 2 / d, a / 2 % d;
    assert a / 2 == q * d + r && a == 2 * (a / 2) + a % 2;
    assert a == q * (2 * d) + (2 * r + a % 2);
    DivIs(a, 2 * d, q, 2 * r + a % 2);
  }

  lemma DivIs(a: nat, d: nat, q: nat, r: nat)
    requires d > 0 && a == q * d + r && r < d
    ensures a / d == q
  {
    var e := a / d - q;
    assert a == (a / d) * d + a % d;
    assert e * d == r - a % d;
    AtLeast(e, d);
  }

  lemma AtLeast(e: int, d: int)
    requires d >= 0
    ensures (e > 0 ==> e * d >= d) && (e < 0 ==> e * d <= -d)
  {
  }

  /** Exclusive or, digit by digit. */
  lemma {:induction false} XorDigit(a: nat, b: nat, n: nat)
    ensures Digit(Xor(a, b), n) == 1 <==> Digit(a, n) != Digit(b, n)
    decreases n
  {
    DigitNext(a, if n > 0 then n - 1 else 0);
    DigitNext(b, if n > 0 then n - 1 else 0);
    DigitNext(Xor(a, b), if n > 0 then n - 1 else 0);
    if n > 0 {
      assert Xor(a, b) / 2 == Xor(a / 2, b / 2);
      XorDigit(a / 2, b / 2, n - 1);
    }
  }

  /** The mask of a power of two is the remainder by it. */
  lemma {:induction false} AndMask(a: nat, n: nat)
    ensures And(a, Pow2(n) - 1) == a % Pow2(n)
    decreases n
  {
    if n > 0 {
      var d := Pow2(n - 1);
      AndMask(a / 2, n - 1);
      assert (Pow2(n) - 1) / 2 == d - 1 && (Pow2(n) - 1) % 2 == 1;
      ModTwice(a, d);
    }
  }

  lemma ModTwice(a: nat, d: nat)
    requires d > 0
    ensures a % (2 * d) == 2 * (a / 2 % d) + a % 2
  {
    DivTwice(a, d);
    var q := a / (2 * d);
    assert a == (2 * d) * q + a % (2 * d) && a / 2 == d * q + a / 2 % d && a == 2 * (a / 2) + a % 2;
    assert 2 * (d * q) == (2 * d) * q;
  }

  /** Masking twice with the same key gives the original back. */
  lemma {:induction false} XorInvolution(a: nat, k: nat)
    ensures Xor(Xor(a, k), k) == a
  {
    if a != 0 || k != 0 {
      XorInvolution(a / 2, k / 2);
      assert Xor(a, k) / 2 == Xor(a / 2, k / 2);
    }
  }

  /** The digits say it all. */
  lemma {:induction false} DigitsDecide(a: nat, b: nat, width: nat)
    requires a < Pow2(width) && b < Pow2(width)
    requires forall n: nat | n < width :: Digit(a, n) == Digit(b, n)
    ensures a == b
    decreases width
  {
    if width > 0 {
      forall n: nat | n < width - 1
        ensures Digit(a / 2, n) == Digit(b / 2, n)
      {
        DigitNext(a, n);
        DigitNext(b, n);
        assert Digit(a, n + 1) == Digit(b, n + 1);
      }
      DigitsDecide(a / 2, b / 2, width - 1);
      DigitNext(a, 0);
      DigitNext(b, 0);
      assert Digit(a, 0) == Digit(b, 0);
    }
  }

  /** Digits stay within the width of their operands. */
  lemma {:induction false} XorWidth(a: nat, b: nat, width: nat)
    requires a < Pow2(width) && b < Pow2(width)
    ensures Xor(a, b) < Pow2(width)
  {
    if (a != 0 || b != 0) && width > 0 {
      XorWidth(a / 2, b / 2, width - 1);
    }
  }

  function Pow2(n: nat): (r: nat)
    ensures r > 0
  {
    if n == 0 then 1 else 2 * Pow2(n - 1)
  }
}
