/** Real-number helpers standing for Python float arithmetic. */
module Numeric {
  import opened Outcomes

  function Max(a: real, b: real): real { if a >= b then a else b }

  function Min(a: real, b: real): real { if a <= b then a else b }

  /** `b ** n` for a non-negative integer exponent. */
  function Pow(b: real, n: nat): real
    decreases n
  {
    if n == 0 then 1.0 else b * Pow(b, n - 1)
  }

  /** Sign facts about powers: positive and non-zero bases stay so, a base of at least 1 gives at least 1. */
  lemma {:induction false} PowFacts(b: real, n: nat)
    ensures b > 0.0 ==> Pow(b, n) > 0.0
    ensures b != 0.0 ==> Pow(b, n) != 0.0
    ensures b >= 1.0 ==> Pow(b, n) >= 1.0
    decreases n
  {
    if n > 0 {
      PowFacts(b, n - 1);
      var p := Pow(b, n - 1);
      if b >= 1.0 {
        MulMonotone(b, 1.0, p);
      }
    }
  }

  /** Python's `b ** e` for a float base and an int exponent: `0.0 ** -k` raises. */
  function IntPow(b: real, e: int): (r: Result<real>)
    ensures r.Err? <==> e < 0 && b == 0.0
    ensures r.Err? ==> r.error == ZeroDivisionError
    ensures e >= 0 ==> r == Ok(Pow(b, e))
  {
    if e >= 0 then Ok(Pow(b, e))
    else if b == 0.0 then Err(ZeroDivisionError)
    else
      PowFacts(b, -e);
      Ok(1.0 / Pow(b, -e))
  }

  lemma {:induction false} PowOne(n: nat)
    ensures Pow(1.0, n) == 1.0
    decreases n
  {
    if n > 0 {
      PowOne(n - 1);
    }
  }

  /** A negative power is the reciprocal of the positive one, and positive for a positive base. */
  lemma IntPowNegative(b: real, e: int)
    requires e < 0 && b != 0.0
    ensures IntPow(b, e).value * Pow(b, -e) == 1.0
    ensures b > 0.0 ==> IntPow(b, e).value > 0.0
  {
    PowFacts(b, -e);
  }

  /** A power is zero exactly when the base is zero and the exponent positive. */
  lemma IntPowZero(b: real, e: int)
    requires IntPow(b, e).Ok?
    ensures IntPow(b, e).value == 0.0 <==> b == 0.0 && e > 0
  {
    if b != 0.0 {
      if e >= 0 {
        PowFacts(b, e);
      } else {
        IntPowNegative(b, e);
      }
    } else if e > 0 {
      assert Pow(b, e) == b * Pow(b, e - 1);
    }
  }

  /** Python's `sum(xs)` over a list of floats. */
  function Sum(xs: seq<real>): real
  {
    if xs == [] then 0.0 else Sum(xs[..|xs| - 1]) + xs[|xs| - 1]
  }

  lemma {:induction false} SumAppend(xs: seq<real>, ys: seq<real>)
    ensures Sum(xs + ys) == Sum(xs) + Sum(ys)
    decreases |ys|
  {
    if ys == [] {
      assert xs + ys == xs;
    } else {
      var zs := ys[..|ys| - 1];
      assert (xs + ys)[..|xs + ys| - 1] == xs + zs;
      SumAppend(xs, zs);
    }
  }

  /** Bernoulli's inequality, for a base c = 1 + x with x >= -1: c^n >= 1 + n (c - 1). */
  lemma {:induction false} Bernoulli(c: real, n: nat)
    requires c >= 0.0
    ensures Pow(c, n) >= 1.0 + (n as real) * (c - 1.0)
    decreases n
  {
    if n > 0 {
      Bernoulli(c, n - 1);
      BernoulliStep(c - 1.0, (n - 1) as real, Pow(c, n - 1));
    }
  }

  lemma BernoulliStep(x: real, k: real, p: real)
    requires x >= -1.0 && k >= 0.0 && p >= 1.0 + k * x
    ensures (1.0 + x) * p >= 1.0 + (k + 1.0) * x
  {
    var y := k * x;
    MulMonotone(1.0 + x, 1.0 + y, p);
    SquareNonNegative(x);
    MulMonotone(k, 0.0, x * x);
    assert x * y == k * (x * x);
  }

  lemma SquareNonNegative(x: real)
    ensures x * x >= 0.0
  {
    if x < 0.0 {
      MulMonotone(-x, 0.0, -x);
      assert (-x) * (-x) == x * x;
    } else {
      MulMonotone(x, 0.0, x);
    }
  }

  /** Multiplying by a non-negative factor keeps an inequality. */
  lemma MulMonotone(a: real, x: real, y: real)
    requires a >= 0.0 && x <= y
    ensures a * x <= a * y
  {
    assert a * y - a * x == a * (y - x);
  }

  /** A power of a base in (0,1] stays in (0,1]. */
  lemma {:induction false} PowAtMostOne(b: real, n: nat)
    requires 0.0 < b <= 1.0
    ensures 0.0 < Pow(b, n) <= 1.0
    decreases n
  {
    if n > 0 {
      PowAtMostOne(b, n - 1);
      var p := Pow(b, n - 1);
      assert b * p <= 1.0 * p;
    }
  }

  /** A power of a base above 1 with a positive exponent is above 1. */
  lemma {:induction false} PowAboveOne(b: real, n: nat)
    requires b > 1.0 && n > 0
    ensures Pow(b, n) > 1.0
    decreases n
  {
    var p := Pow(b, n - 1);
    PowFacts(b, n - 1);
    MulMonotone(b, 1.0, p);
  }

  /** For a base of at least 1, a larger exponent never gives a smaller power. */
  lemma {:induction false} PowGrowsWithExponent(b: real, m: nat, n: nat)
    requires b >= 1.0 && m <= n
    ensures Pow(b, m) <= Pow(b, n)
    decreases n
  {
    if m < n {
      PowGrowsWithExponent(b, m, n - 1);
      var p := Pow(b, n - 1);
      PowFacts(b, n - 1);
      MulMonotone(p, 1.0, b);
    }
  }

  /** The reciprocal of a power is the power of the reciprocal. */
  lemma {:induction false} PowReciprocal(b: real, n: nat)
    requires b != 0.0
    ensures Pow(1.0 / b, n) * Pow(b, n) == 1.0
    decreases n
  {
    if n > 0 {
      PowReciprocal(b, n - 1);
      var p := Pow(1.0 / b, n - 1);
      var q := Pow(b, n - 1);
      calc {
        Pow(1.0 / b, n) * Pow(b, n);
        (1.0 / b) * p * (b * q);
        ((1.0 / b) * b) * (p * q);
        1.0;
      }
    }
  }
}
