/** Small facts about products and quotients of reals. */
module RealArithmetic {
  lemma Positive(x: real, y: real)
    requires x > 0.0 && y > 0.0
    ensures x * y > 0.0
  {
  }

  lemma NotNegative(x: real, y: real)
    requires x >= 0.0 && y >= 0.0
    ensures x * y >= 0.0
  {
  }

  lemma SquareNotNegative(x: real)
    ensures x * x >= 0.0
    ensures x != 0.0 ==> x * x > 0.0
  {
    if x > 0.0 {
      Positive(x, x);
    } else if x < 0.0 {
      Positive(-x, -x);
      assert x * x == -x * -x;
    }
  }

  lemma ZeroSquare(x: real)
    requires x * x <= 0.0
    ensures x == 0.0
  {
    if x != 0.0 {
      SquareNotNegative(x);
      calc {
        0.0;
      <
        x * x;
      <=
        0.0;
      }
    }
  }

  lemma SquareGrows(y: real, z: real)
    requires 0.0 <= y < z
    ensures y * y < z * z
  {
    calc {
      y * y;
    <=
      y * z;
    <
      z * z;
    }
  }

  lemma SquareOrder(x: real, y: real)
    requires y >= 0.0 && x * x <= y * y
    ensures -y <= x <= y
  {
    if x > y {
      SquareGrows(y, x);
    } else if x < -y {
      SquareGrows(y, -x);
    }
  }

  lemma Regroup(x: real, y: real)
    ensures (x * x) * (y * y) == (x * y) * (x * y)
  {
    assert (x * x) * (y * y) == x * (x * y) * y;
  }

  lemma Undo(r: real, m: real)
    requires m != 0.0
    ensures r * m / m == r
  {
  }

  lemma QuotientBound(x: real, m: real)
    requires m > 0.0 && -m <= x <= m
    ensures -1.0 <= x / m <= 1.0
  {
    var r := x / m;
    assert r * m == x;
    if r > 1.0 {
      Positive(r - 1.0, m);
    } else if r < -1.0 {
      Positive(-1.0 - r, m);
    }
  }

  lemma CancelFactor(c: real, d: real, p: real, d': real, p': real)
    requires c > 0.0 && p > 0.0 && d' == c * d && p' == c * p
    ensures p' > 0.0 && d' / p' == d / p
  {
    Positive(c, p);
    var r := d / p;
    assert r * p == d;
    assert r * p' == d';
    Undo(r, p');
  }

  lemma InverseFalls(n: real, m: real)
    requires 0.0 < m < n
    ensures 1.0 / n < 1.0 / m
  {
    var p, q := 1.0 / n, 1.0 / m;
    assert p * n == 1.0 && q * m == 1.0;
    PositiveFactor(m, q);
    Positive(q, n - m);
    assert q * (n - m) == q * n - q * m;
    calc {
      n * (q - p);
    ==
      q * n - p * n;
    ==
      q * n - q * m;
    >
      0.0;
    }
    PositiveFactor(n, q - p);
  }

  lemma PositiveFactor(x: real, y: real)
    requires x > 0.0 && x * y > 0.0
    ensures y > 0.0
  {
    if y < 0.0 {
      Positive(x, -y);
    }
  }

  lemma NoZeroFactor(x: real, y: real)
    requires x != 0.0 && y != 0.0
    ensures x * y != 0.0
  {
  }

  lemma CancelOrder(c: real, x: real, y: real)
    requires c > 0.0 && c * x <= c * y
    ensures x <= y
  {
    assert c * (x - y) == c * x - c * y;
    if x > y {
      Positive(c, x - y);
    }
  }
}
