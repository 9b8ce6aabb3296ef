/** Bitwise operators on natural numbers, defined bit by bit, for words of any width. */
module Bits {

  function Pow2(n: nat): (r: nat)
    ensures r >= 1
  {
    if n == 0 then 1 else 2 * Pow2(n - 1)
  }

  function And(a: nat, b: nat): nat {
    if a == 0 || b == 0 then 0
    else 2 * And(a / 2, b / 2) + (if a % 2 == 1 && b % 2 == 1 then 1 else 0)
  }

  function Or(a: nat, b: nat): nat
    decreases a + b
  {
    if a == 0 && b == 0 then 0
    else 2 * Or(a / 2, b / 2) + (if a % 2 == 1 || b % 2 == 1 then 1 else 0)
  }

  function Xor(a: nat, b: nat): nat
    decreases a + b
  {
    if a == 0 && b == 0 then 0
    else 2 * Xor(a / 2, b / 2) + (if a % 2 != b % 2 then 1 else 0)
  }

  /** Bit i of x, bit 0 being the least significant one. */
  function Bit(x: nat, i: nat): nat {
    x / Pow2(i) % 2
  }

  lemma {:induction false} XorIsZero(a: nat, b: nat)
    ensures Xor(a, b) == 0 <==> a == b
    decreases a + b
  {
    if a != 0 || b != 0 {
      XorIsZero(a / 2, b / 2);
    }
  }

  lemma {:induction false} OrIsZero(a: nat, b: nat)
    ensures Or(a, b) == 0 <==> a == 0 && b == 0
    decreases a + b
  {
    if a != 0 || b != 0 {
      OrIsZero(a / 2, b / 2);
    }
  }

  lemma {:induction false} XorBound(a: nat, b: nat, n: nat)
    requires a < Pow2(n) && b < Pow2(n)
    ensures Xor(a, b) < Pow2(n)
    decreases n
  {
    if n > 0 {
      XorBound(a / 2, b / 2, n - 1);
    }
  }

  lemma {:induction false} Pow2Sum(m: nat, n: nat)
    ensures Pow2(m + n) == Pow2(m) * Pow2(n)
    decreases m
  {
    if m > 0 {
      Pow2Sum(m - 1, n);
      assert Pow2(m + n) == 2 * (Pow2(m - 1) * Pow2(n));
    }
  }

  /** Masking with k ones over a number below 2^k changes nothing. */
  lemma {:induction false} AndAllOnes(x: nat, k: nat)
    requires x < Pow2(k)
    ensures And(x, Pow2(k) - 1) == x
    decreases k
  {
    if x != 0 {
      assert k > 0 && (Pow2(k) - 1) / 2 == Pow2(k - 1) - 1 && (Pow2(k) - 1) % 2 == 1;
      AndAllOnes(x / 2, k - 1);
    }
  }

  lemma AndDouble(x: nat, half: nat)
    ensures And(x, 2 * half) == 2 * And(x / 2, half)
  {
  }

  /** Masking with p ones followed by k zeros clears the low k bits. */
  lemma {:induction false} AndHighOnes(x: nat, p: nat, k: nat)
    requires x < Pow2(p + k)
    ensures And(x, (Pow2(p) - 1) * Pow2(k)) == x / Pow2(k) * Pow2(k)
    decreases k
  {
    if k == 0 {
      AndAllOnes(x, p);
    } else {
      var ones, d := Pow2(p) - 1, Pow2(k - 1);
      Doubling(ones, d);
      AndDouble(x, ones * d);
      AndHighOnes(x / 2, p, k - 1);
      DivTwice(x, d);
      Doubling(x / (2 * d), d);
    }
  }

  lemma Doubling(a: int, b: int)
    ensures a * (2 * b) == 2 * (a * b)
  {
  }

  lemma SmallQuotient(x: nat, d: nat)
    requires x < d
    ensures x / d == 0
  {
  }

  lemma DivTwice(x: nat, d: nat)
    requires d >= 1
    ensures x / 2 / d == x / (2 * d)
  {
    var p := x / 2 / d;
    Euclid(x / 2, d);
    Doubling(p, d);
    QuotientOf(x, 2 * d, p);
  }

  lemma Euclid(x: nat, d: nat)
    requires d >= 1
    ensures x == x / d * d + x % d
  {
  }

  /** The quotient is the only q with q * d <= x < q * d + d. */
  lemma QuotientOf(x: nat, d: nat, q: nat)
    requires d >= 1
    requires q * d <= x < q * d + d
    ensures x / d == q
  {
    var p := x / d;
    assert p * d <= x < p * d + d;
    MulOrder(p + 1, q, d);
    MulOrder(q + 1, p, d);
  }

  lemma MulOrder(a: int, b: int, d: nat)
    ensures a <= b ==> a * d <= b * d
  {
  }

  /** Two quotients by 2^k are equal exactly when all bits from k up are equal. */
  lemma {:induction false} SameHighBits(x: nat, y: nat, k: nat, w: nat)
    requires k <= w && x < Pow2(w) && y < Pow2(w)
    ensures x / Pow2(k) == y / Pow2(k) <==> forall i :: k <= i < w ==> Bit(x, i) == Bit(y, i)
    decreases w - k
  {
    if k == w {
      SmallQuotient(x, Pow2(w));
      SmallQuotient(y, Pow2(w));
    } else {
      SameHighBits(x, y, k + 1, w);
      HalfQuotient(x, k);
      HalfQuotient(y, k);
      assert Bit(x, k) == x / Pow2(k) % 2 && Bit(y, k) == y / Pow2(k) % 2;
    }
  }

  lemma HalfQuotient(x: nat, k: nat)
    ensures x / Pow2(k + 1) == x / Pow2(k) / 2
  {
    QuotientOfDouble(x, Pow2(k));
  }

  lemma QuotientOfDouble(x: nat, d: nat)
    requires d >= 1
    ensures x / (2 * d) == x / d / 2
  {
    var p := x / d;
    Euclid(x, d);
    Doubling(p / 2, d);
    NextMultiple(p / 2, d);
    assert p == 2 * (p / 2) || p == 2 * (p / 2) + 1;
    QuotientOf(x, 2 * d, p / 2);
  }

  lemma NextMultiple(q: nat, d: nat)
    ensures (2 * q) * d == 2 * (q * d) && (2 * q + 1) * d == 2 * (q * d) + d
  {
  }
}
