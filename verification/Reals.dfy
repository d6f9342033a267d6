/** Facts about products and quotients of reals. */
module Reals {

  lemma {:induction false} PositiveProduct(x: real, y: real, r: real)
    requires r == x * y && x > 0.0 && y > 0.0
    ensures r > 0.0
  {
  }

  lemma {:induction false} NonNegativeProduct(x: real, y: real, r: real)
    requires r == x * y && x >= 0.0 && y >= 0.0
    ensures r >= 0.0
  {
  }

  lemma {:induction false} DifferenceOfSquares(x: real, y: real)
    ensures x * x - y * y == (x - y) * (x + y)
  {
  }

  lemma {:induction false} Larger(x: real, y: real)
    requires 0.0 <= y < x
    ensures x * x > y * y
  {
    DifferenceOfSquares(x, y);
    PositiveProduct(x - y, x + y, (x - y) * (x + y));
  }

  lemma {:induction false} OppositeSquare(x: real)
    ensures (-x) * (-x) == x * x
  {
  }

  /** A square no larger than another bounds the number both ways. */
  lemma {:induction false} SquareWithin(x: real, limit: real)
    requires limit >= 0.0 && x * x <= limit * limit
    ensures -limit <= x <= limit
  {
    OppositeSquare(x);
    if x > limit {
      Larger(x, limit);
      assert false;
    } else if -x > limit {
      Larger(-x, limit);
      assert false;
    }
  }

  lemma {:induction false} AtLeast(d: real, least: real)
    requires least > 0.0
    ensures d >= least || d <= -least ==> d * d >= least * least
  {
    OppositeSquare(d);
    if d > least {
      Larger(d, least);
    } else if -d > least {
      Larger(-d, least);
    } else if d == -least {
      OppositeSquare(least);
    }
  }

  lemma {:induction false} HalfSquare(e: real)
    ensures (2.0 * e) * (2.0 * e) == 4.0 * (e * e)
  {
  }

  lemma {:induction false} LessThanHalf(d: real, least: real)
    requires least > 0.0
    ensures -least < 2.0 * d < least ==> 4.0 * (d * d) < least * least
  {
    OppositeSquare(d);
    if 0.0 <= 2.0 * d < least {
      Larger(least, 2.0 * d);
      HalfSquare(d);
    } else if -least < 2.0 * d < 0.0 {
      Larger(least, 2.0 * -d);
      HalfSquare(-d);
    }
  }

  lemma {:induction false} Undivided(x: real, y: real, q: real)
    requires y > 0.0 && q == x / y
    ensures q * y == x
  {
  }

  lemma {:induction false} Monotone(x: real, y: real, s: real)
    requires x <= y && s >= 0.0
    ensures x * s <= y * s
  {
    NonNegativeProduct(y - x, s, (y - x) * s);
    assert (y - x) * s == y * s - x * s;
  }

  lemma {:induction false} QuotientWithin(hi: real, lo: real, limit: real)
    requires lo > 0.0 && hi / lo <= limit
    ensures hi <= limit * lo
  {
    Undivided(hi, lo, hi / lo);
    Monotone(hi / lo, limit, lo);
  }

  lemma {:induction false} ScaledWithin(d: real, s: real, limit: real)
    requires s > 0.0 && -limit <= d / s <= limit
    ensures -(limit * s) <= d <= limit * s
  {
    Undivided(d, s, d / s);
    Monotone(d / s, limit, s);
    Monotone(-limit, d / s, s);
    OppositeProduct(limit, s);
  }

  lemma {:induction false} OppositeProduct(x: real, y: real)
    ensures -x * y == -(x * y)
  {
  }

  lemma {:induction false} QuotientOf(k: real, s: real)
    requires s > 0.0
    ensures k * s / s == k
  {
  }
}
