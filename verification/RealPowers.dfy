/** Powers and geometric sums of a real number. */
module RealPowers {

  function Pow(x: real, k: nat): real {
    if k == 0 then 1.0 else x * Pow(x, k - 1)
  }

  /** 1 + x + ... + x^(k-1) */
  function GeometricSum(x: real, k: nat): real {
    if k == 0 then 0.0 else 1.0 + x * GeometricSum(x, k - 1)
  }

  /** What is left of an amount after k steps that each keep the share x. */
  function Decayed(amount: real, x: real, k: nat): real {
    Pow(x, k) * amount
  }

  function Square(a: real): real {
    a * a
  }

  lemma DecayedStep(amount: real, x: real, k: nat)
    ensures Decayed(amount * x, x, k) == Decayed(amount, x, k + 1)
  {
    assert Pow(x, k) * (amount * x) == (x * Pow(x, k)) * amount;
  }

  lemma SquarePositive(a: real)
    requires a > 0.0
    ensures Square(a) > 0.0
  {
    assert (a * a) / a == a;
    if a * a == 0.0 {
      assert false;
    }
  }

  lemma {:induction false} PowBounds(x: real, k: nat)
    requires 0.0 <= x <= 1.0
    ensures 0.0 <= Pow(x, k) <= 1.0
  {
    if k > 0 {
      var p := Pow(x, k - 1);
      PowBounds(x, k - 1);
      assert Pow(x, k) == x * p;
      NonNegativeProduct(x, p);
      ShrunkProduct(x, p);
    }
  }

  lemma NonNegativeProduct(a: real, b: real)
    requires a >= 0.0 && b >= 0.0
    ensures a * b >= 0.0
  {
  }

  lemma ShrunkProduct(a: real, b: real)
    requires a <= 1.0 && b >= 0.0
    ensures a * b <= b
  {
    NonNegativeProduct(1.0 - a, b);
  }

  lemma {:induction false} GeometricSumClosed(x: real, k: nat)
    ensures GeometricSum(x, k) * (1.0 - x) == 1.0 - Pow(x, k)
  {
    if k > 0 { GeometricSumClosed(x, k - 1); }
  }

  /** Bernoulli's inequality for a number below one. */
  lemma {:induction false} PowDecays(x: real, k: nat)
    requires 0.0 <= x <= 1.0
    ensures Pow(x, k) * (1.0 + k as real * (1.0 - x)) <= 1.0
  {
    if k > 0 {
      var d, n, p := 1.0 - x, (k - 1) as real, Pow(x, k - 1);
      PowDecays(x, k - 1);
      PowBounds(x, k - 1);
      BernoulliStep(x, n);
      MulMonotone(p, x * (1.0 + (n + 1.0) * d), 1.0 + n * d);
      Reassociate(x, p, 1.0 + (n + 1.0) * d);
    }
  }

  lemma BernoulliStep(x: real, n: real)
    requires n >= 0.0
    ensures x * (1.0 + (n + 1.0) * (1.0 - x)) <= 1.0 + n * (1.0 - x)
  {
    var d := 1.0 - x;
    var square := d * d;
    assert square >= 0.0;
    NonNegativeProduct(n, square);
    assert x * (1.0 + (n + 1.0) * d) == 1.0 + n * d - n * square - square;
  }

  lemma Reassociate(x: real, p: real, y: real)
    ensures x * p * y == p * (x * y)
  {
  }

  lemma MulMonotone(p: real, a: real, b: real)
    requires p >= 0.0 && a <= b
    ensures p * a <= p * b
  {
  }

  lemma Absorb(p: real, amount: real, bound: real, s: real)
    requires p >= 0.0 && bound >= 0.0 && amount <= bound * s && p * s <= 1.0
    ensures p * amount <= bound
  {
    MulMonotone(p, amount, bound * s);
    assert p * (bound * s) == bound * (p * s);
    ShrunkProduct(p * s, bound);
  }

  lemma CrossDivide(amount: real, divisor: real, n: real)
    requires divisor > 0.0 && n >= amount / divisor
    ensures amount <= divisor * n
  {
    var q := amount / divisor;
    assert amount == divisor * q;
    MulMonotone(divisor, q, n);
  }

  /** From some exponent on, the powers of a number below one bring any
      non-negative amount under any positive bound. */
  lemma PowVanishes(x: real, amount: real, bound: real) returns (start: nat)
    requires 0.0 <= x < 1.0 && amount >= 0.0 && bound > 0.0
    ensures forall k: nat :: k >= start ==> Decayed(amount, x, k) <= bound
  {
    MulPositive(bound, 1.0 - x);
    var quotient := amount / (bound * (1.0 - x));
    QuotientNonNegative(amount, bound * (1.0 - x));
    start := quotient.Floor + 1;
    forall k: nat | k >= start ensures Decayed(amount, x, k) <= bound {
      AboveFloor(quotient, k);
      PowBelow(x, amount, bound, k);
    }
  }

  lemma AboveFloor(q: real, k: int)
    requires k > q.Floor
    ensures k as real >= q
  {
  }

  lemma QuotientNonNegative(a: real, b: real)
    requires a >= 0.0 && b > 0.0
    ensures a / b >= 0.0
  {
  }

  lemma MulPositive(a: real, b: real)
    requires a > 0.0 && b > 0.0
    ensures a * b > 0.0
  {
  }

  lemma PowBelow(x: real, amount: real, bound: real, k: nat)
    requires 0.0 <= x < 1.0 && bound > 0.0
    requires bound * (1.0 - x) > 0.0 && k as real >= amount / (bound * (1.0 - x))
    ensures Decayed(amount, x, k) <= bound
  {
    var d, n := 1.0 - x, k as real;
    CrossDivide(amount, bound * d, n);
    assert bound * (1.0 + n * d) == bound + bound * d * n;
    PowDecays(x, k);
    PowBounds(x, k);
    Absorb(Pow(x, k), amount, bound, 1.0 + n * d);
  }
}
