/** Order facts about products of reals. */
module Reals {
  /** The product as a named function, so that equal factors visibly give equal products. */
  function Times(a: real, b: real): real {
    a * b
  }

  lemma ProductPositive(a: real, b: real)
    requires a > 0.0 && b > 0.0
    ensures a * b > 0.0 && Times(a, b) > 0.0
  {
  }

  lemma ProductNonNegative(a: real, b: real)
    requires a >= 0.0 && b >= 0.0
    ensures a * b >= 0.0 && Times(a, b) >= 0.0
  {
  }

  lemma SquareOfNegative(v: real)
    ensures Times(-v, -v) == Times(v, v)
  {
  }

  lemma SquarePositive(v: real)
    requires v != 0.0
    ensures v * v > 0.0 && Times(v, v) > 0.0
  {
    if v < 0.0 {
      ProductPositive(-v, -v);
      SquareOfNegative(v);
    } else {
      ProductPositive(v, v);
    }
  }

  lemma ZeroTimes(v: real)
    ensures Times(v, 0.0) == 0.0 == Times(0.0, v)
  {
  }

  lemma SquareZeroTimes(v: real)
    ensures Times(v, v) >= 0.0
    ensures Times(v, v) == 0.0 <==> v == 0.0
  {
    if v != 0.0 {
      SquarePositive(v);
    } else {
      ZeroTimes(v);
    }
  }

  /** Distributivity, with the sum named. */
  lemma Distribute(a: real, b: real, c: real, sum: real)
    requires sum == b + c
    ensures Times(a, sum) == Times(a, b) + Times(a, c)
  {
  }

  lemma OneMore(n: real, m: real, a: real)
    requires m == n + 1.0
    ensures Times(m, a) == Times(n, a) + a
  {
  }

  lemma SquareOfDifference(x: real, y: real)
    ensures Times(x - y, x - y) == Times(x, x) - 2.0 * Times(y, x) + Times(y, y)
  {
  }

  lemma SquareOfSum(s: real, y: real, sum: real)
    requires sum == s + y
    ensures Times(sum, sum) == Times(s, s) + 2.0 * Times(y, s) + Times(y, y)
  {
  }

  lemma OneTimes(b: real)
    ensures Times(1.0, b) == b && Times(0.0, b) == 0.0
  {
  }

  lemma SquareOfProduct(c: real, y: real)
    ensures Times(Times(c, y), Times(c, y)) == Times(Times(c, c), Times(y, y))
  {
  }

  lemma Reorder(n: real, k: real, q: real)
    ensures Times(n, Times(k, q)) == Times(k, Times(n, q))
  {
  }

  /** The sign of x survives a positive factor. */
  lemma PositiveScales(y: real, x: real)
    requires y > 0.0
    ensures 0.0 <= Times(y, x) <==> 0.0 <= x
    ensures Times(y, x) == 0.0 <==> x == 0.0
  {
    if x == 0.0 {
      ZeroTimes(y);
    } else if x > 0.0 {
      ProductPositive(y, x);
    } else {
      ProductPositive(y, -x);
      Distribute(y, x, -x, 0.0);
      ZeroTimes(y);
    }
  }

  lemma ScaleMonotone(x: real, y: real, d: real)
    requires x <= y && d >= 0.0
    ensures x * d <= y * d && Times(x, d) <= Times(y, d)
  {
    ProductNonNegative(y - x, d);
    assert (y - x) * d == y * d - x * d;
  }

  lemma ScaleStrict(x: real, y: real, d: real)
    requires x < y && d > 0.0
    ensures x * d < y * d && Times(x, d) < Times(y, d)
  {
    ProductPositive(y - x, d);
    assert (y - x) * d == y * d - x * d;
  }

  /** A positive factor keeps and reflects the order. */
  lemma ScaleOrder(x: real, y: real, d: real)
    requires d > 0.0
    ensures x <= y <==> Times(x, d) <= Times(y, d)
    ensures x == y <==> Times(x, d) == Times(y, d)
  {
    if x < y {
      ScaleStrict(x, y, d);
    } else if y < x {
      ScaleStrict(y, x, d);
    }
  }

  /** A point between a and b. */
  lemma Between(a: real, b: real, f: real)
    requires a <= b && 0.0 <= f <= 1.0
    ensures a <= a + Times(f, b - a) <= b
  {
    ProductNonNegative(f, b - a);
    ScaleMonotone(f, 1.0, b - a);
    OneTimes(b - a);
  }

  lemma WeightedMonotone(a: real, b: real, c: real, d: real, f: real)
    requires a <= c && b <= d && 0.0 <= f <= 1.0
    ensures a + Times(f, b - a) <= c + Times(f, d - c)
  {
    ProductNonNegative(1.0 - f, c - a);
    ProductNonNegative(f, d - b);
    assert c + f * (d - c) - (a + f * (b - a)) == (1.0 - f) * (c - a) + f * (d - b);
  }

  lemma DivideMonotone(a: real, b: real, n: real)
    requires a <= b && n > 0.0
    ensures a / n <= b / n
  {
    var x, y := a / n, b / n;
    assert x * n == a && y * n == b;
    if y < x {
      ScaleStrict(y, x, n);
    }
  }
}
