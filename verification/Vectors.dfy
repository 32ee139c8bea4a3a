/** Cosine similarity over the reals (_cosine in backend/apps/knowledge/similarity.py).
    The square root is a parameter: any function that is one on the numbers it is applied to. */
module Vectors {
  import opened RealArithmetic

  type Vector = seq<real>

  ghost predicate IsSquareRoot(sqrt: real -> real) {
    forall x :: x >= 0.0 ==> sqrt(x) >= 0.0 && sqrt(x) * sqrt(x) == x
  }

  /** zip stops at the shorter vector. */
  function Dot(a: Vector, b: Vector): real {
    if a == [] || b == [] then 0.0 else a[0] * b[0] + Dot(a[1..], b[1..])
  }

  function SquaredNorm(a: Vector): real {
    Dot(a, a)
  }

  function Cosine(sqrt: real -> real, a: Vector, b: Vector): real {
    Quotient(Dot(a, b), sqrt(SquaredNorm(a)), sqrt(SquaredNorm(b)))
  }

  /** A vanishing vector is similar to nothing. */
  function Quotient(dot: real, na: real, nb: real): real {
    if na == 0.0 || nb == 0.0 then 0.0
    else
      assert na * nb != 0.0;
      dot / (na * nb)
  }

  // ---------- what the score says ----------

  /** The product is taken coordinate by coordinate, */
  lemma {:induction false} DotAppend(a: Vector, b: Vector, x: Vector, y: Vector)
    requires |a| == |b|
    ensures Dot(a + x, b + y) == Dot(a, b) + Dot(x, y)
  {
    if a == [] {
      assert a + x == x && b + y == y;
    } else {
      assert (a + x)[1..] == a[1..] + x && (b + y)[1..] == b[1..] + y;
      DotAppend(a[1..], b[1..], x, y);
    }
  }

  lemma DotOfOne(x: real, y: real)
    ensures Dot([x], [y]) == x * y
  {
    assert [x][1..] == [];
  }

  /** and what a longer vector has more is left out. */
  lemma {:induction false} RestIsLeftOut(a: Vector, b: Vector, rest: Vector)
    requires |a| == |b|
    ensures Dot(a + rest, b) == Dot(a, b) && Dot(a, b + rest) == Dot(a, b)
  {
    DotAppend(a, b, rest, []);
    DotAppend(a, b, [], rest);
    assert a + [] == a && b + [] == b;
  }

  lemma {:induction false} NormIsPositive(a: Vector, i: nat)
    requires i < |a| && a[i] != 0.0
    ensures SquaredNorm(a) > 0.0
  {
    NormNotNegative(a[1..]);
    if i > 0 {
      assert a[1..][i - 1] == a[i];
      NormIsPositive(a[1..], i - 1);
    }
    NormCons(a);
    FirstOrRest(a[0], SquaredNorm(a[1..]));
  }

  lemma FirstOrRest(x: real, rest: real)
    requires rest >= 0.0 && (x != 0.0 || rest > 0.0)
    ensures x * x + rest > 0.0
  {
    if x == 0.0 {
      assert x * x == 0.0;
    } else {
      SquareNotNegative(x);
      calc {
        0.0;
      <
        x * x;
      <=
        x * x + rest;
      }
    }
  }

  lemma NormCons(a: Vector)
    requires a != []
    ensures SquaredNorm(a) == a[0] * a[0] + SquaredNorm(a[1..])
  {
  }

  lemma {:induction false} ZeroNorm(a: Vector)
    requires forall i :: 0 <= i < |a| ==> a[i] == 0.0
    ensures SquaredNorm(a) == 0.0
  {
    if a != [] {
      ZeroNorm(a[1..]);
    }
  }

  /** Every vector but a vanishing one is completely similar to itself. */
  lemma {:induction false} CosineOfItself(sqrt: real -> real, a: Vector)
    requires IsSquareRoot(sqrt)
    ensures Cosine(sqrt, a, a) == if exists i :: 0 <= i < |a| && a[i] != 0.0 then 1.0 else 0.0
  {
    if i :| 0 <= i < |a| && a[i] != 0.0 {
      NormIsPositive(a, i);
    } else {
      ZeroNorm(a);
    }
    WholeQuotient(SquaredNorm(a), sqrt(SquaredNorm(a)));
  }

  lemma WholeQuotient(n: real, x: real)
    requires n >= 0.0 && x * x == n
    ensures Quotient(n, x, x) == if n == 0.0 then 0.0 else 1.0
  {
    if n == 0.0 {
      ZeroSquare(x);
    } else {
      assert x != 0.0;
      assert n / n == 1.0;
    }
  }

  // ---------- symmetry, and the bound of Cauchy and Schwarz ----------

  lemma {:induction false} DotSymmetric(a: Vector, b: Vector)
    ensures Dot(a, b) == Dot(b, a)
  {
    if a != [] && b != [] {
      DotSymmetric(a[1..], b[1..]);
    }
  }

  lemma CosineIsSymmetric(sqrt: real -> real, a: Vector, b: Vector)
    ensures Cosine(sqrt, a, b) == Cosine(sqrt, b, a)
  {
    DotSymmetric(a, b);
    var na, nb := sqrt(SquaredNorm(a)), sqrt(SquaredNorm(b));
    assert na * nb == nb * na;
  }

  lemma {:induction false} NormNotNegative(a: Vector)
    ensures SquaredNorm(a) >= 0.0
  {
    if a != [] {
      NormNotNegative(a[1..]);
      SquareNotNegative(a[0]);
    }
  }

  /** The cross term of the induction step: 2xyd <= x*x*q + y*y*p when d*d <= p*q. */
  lemma CrossTerm(x: real, y: real, p: real, q: real, d: real)
    requires p >= 0.0 && q >= 0.0 && d * d <= p * q
    ensures 2.0 * (x * y * d) <= x * x * q + y * y * p
  {
    if q == 0.0 {
      assert d == 0.0 by { ZeroSquare(d); }
      assert x * y * d == 0.0;
      assert x * x * q == 0.0;
      NotNegative(y * y, p);
      SquareNotNegative(y);
    } else {
      SquareNotNegative(x * q - y * d);
      SquareNotNegative(y);
      NotNegative(y * y, p * q - d * d);
      Expand(x, y, p, q, d);
      SignOfFactor(q, x * x * q + y * y * p - 2.0 * (x * y * d));
    }
  }

  lemma SignOfFactor(q: real, r: real)
    requires q > 0.0 && q * r >= 0.0
    ensures r >= 0.0
  {
    if r < 0.0 {
      Positive(q, -r);
    }
  }

  lemma Expand(x: real, y: real, p: real, q: real, d: real)
    ensures q * (x * x * q + y * y * p - 2.0 * (x * y * d)) ==
            (x * q - y * d) * (x * q - y * d) + y * y * (p * q - d * d)
  {
    var xq, yd := x * q, y * d;
    assert (xq - yd) * (xq - yd) == xq * xq - 2.0 * (xq * yd) + yd * yd;
    assert q * (x * x * q) == xq * xq;
    assert q * (x * y * d) == xq * yd;
    assert yd * yd == y * y * (d * d);
    assert q * (y * y * p) == y * y * (p * q);
    assert y * y * (p * q - d * d) == y * y * (p * q) - y * y * (d * d);
  }

  lemma {:induction false} CauchySchwarz(a: Vector, b: Vector)
    ensures Dot(a, b) * Dot(a, b) <= SquaredNorm(a) * SquaredNorm(b)
  {
    NormNotNegative(a);
    NormNotNegative(b);
    if a == [] || b == [] {
      NotNegative(SquaredNorm(a), SquaredNorm(b));
    } else {
      CauchySchwarz(a[1..], b[1..]);
      NormNotNegative(a[1..]);
      NormNotNegative(b[1..]);
      CauchyStep(a[0], b[0], SquaredNorm(a[1..]), SquaredNorm(b[1..]), Dot(a[1..], b[1..]));
    }
  }

  lemma CauchyStep(x: real, y: real, p: real, q: real, d: real)
    requires p >= 0.0 && q >= 0.0 && d * d <= p * q
    ensures (x * y + d) * (x * y + d) <= (x * x + p) * (y * y + q)
  {
    CrossTerm(x, y, p, q, d);
    var z := x * y;
    assert (z + d) * (z + d) == z * z + 2.0 * (z * d) + d * d;
    assert (x * x + p) * (y * y + q) == (x * x) * (y * y) + x * x * q + p * (y * y) + p * q;
    Regroup(x, y);
    assert p * (y * y) == y * y * p;
  }

  /** No score exceeds one in absolute value. */
  lemma CosineAtMostOne(sqrt: real -> real, a: Vector, b: Vector)
    requires IsSquareRoot(sqrt)
    ensures -1.0 <= Cosine(sqrt, a, b) <= 1.0
  {
    NormNotNegative(a);
    NormNotNegative(b);
    CauchySchwarz(a, b);
    QuotientAtMostOne(Dot(a, b), sqrt(SquaredNorm(a)), sqrt(SquaredNorm(b)), SquaredNorm(a), SquaredNorm(b));
  }

  lemma QuotientAtMostOne(d: real, x: real, y: real, n: real, m: real)
    requires x >= 0.0 && y >= 0.0 && x * x == n && y * y == m && d * d <= n * m
    ensures -1.0 <= Quotient(d, x, y) <= 1.0
  {
    if x != 0.0 && y != 0.0 {
      Positive(x, y);
      BoundedByRoots(d, x, y, n, m);
      QuotientBound(d, x * y);
    }
  }

  lemma BoundedByRoots(d: real, x: real, y: real, n: real, m: real)
    requires x >= 0.0 && y >= 0.0 && x * x == n && y * y == m && d * d <= n * m
    ensures -(x * y) <= d <= x * y
  {
    var p := x * y;
    NotNegative(x, y);
    Regroup(x, y);
    assert n * m == p * p;
    SquareOrder(d, p);
  }

  // ---------- scaling ----------

  function Scale(c: real, a: Vector): Vector {
    if a == [] then [] else [c * a[0]] + Scale(c, a[1..])
  }

  lemma {:induction false} DotScale(c: real, a: Vector, b: Vector)
    ensures Dot(Scale(c, a), b) == c * Dot(a, b)
  {
    if a != [] && b != [] {
      DotScale(c, a[1..], b[1..]);
      assert Scale(c, a)[1..] == Scale(c, a[1..]);
    }
  }

  lemma NormScale(c: real, a: Vector)
    ensures SquaredNorm(Scale(c, a)) == c * c * SquaredNorm(a)
  {
    DotScale(c, a, Scale(c, a));
    DotSymmetric(a, Scale(c, a));
    DotScale(c, a, a);
  }

  lemma RootOfScaled(sqrt: real -> real, c: real, n: real)
    requires IsSquareRoot(sqrt) && c > 0.0 && n >= 0.0
    ensures c * c * n >= 0.0
    ensures sqrt(c * c * n) == c * sqrt(n)
  {
    Positive(c, c);
    NotNegative(c * c, n);
    var r := sqrt(n);
    NotNegative(c, r);
    Regroup(c, r);
    SameSquare(sqrt(c * c * n), c * r, c * c * n);
  }

  lemma SameSquare(x: real, y: real, s: real)
    requires x >= 0.0 && y >= 0.0 && x * x == s && y * y == s
    ensures x == y
  {
    SquareOrder(x, y);
    SquareOrder(y, x);
  }

  /** The score does not depend on the length of a vector: whatever positive number a sum of
      embeddings is divided by, the scores are the same. */
  lemma CosineIgnoresScale(sqrt: real -> real, c: real, a: Vector, b: Vector)
    requires IsSquareRoot(sqrt) && c > 0.0
    ensures Cosine(sqrt, Scale(c, a), b) == Cosine(sqrt, a, b)
  {
    DotScale(c, a, b);
    NormScale(c, a);
    NormNotNegative(a);
    NormNotNegative(b);
    RootOfScaled(sqrt, c, SquaredNorm(a));
    RescaledQuotient(c, Dot(a, b), sqrt(SquaredNorm(a)), sqrt(SquaredNorm(b)),
                     Dot(Scale(c, a), b), sqrt(SquaredNorm(Scale(c, a))));
  }

  lemma RescaledQuotient(c: real, d: real, x: real, y: real, d': real, x': real)
    requires c > 0.0 && x >= 0.0 && y >= 0.0 && d' == c * d && x' == c * x
    ensures Quotient(d', x', y) == Quotient(d, x, y)
  {
    if x == 0.0 {
      assert x' == 0.0;
    } else {
      Positive(c, x);
      if y != 0.0 {
        var p, p' := x * y, x' * y;
        Positive(x, y);
        assert p' == c * p;
        CancelFactor(c, d, p, d', p');
      }
    }
  }

  // ---------- nearby vectors ----------

  function Minus(a: Vector, b: Vector): Vector
    requires |a| == |b|
  {
    if a == [] then [] else [a[0] - b[0]] + Minus(a[1..], b[1..])
  }

  lemma {:induction false} DotMinus(a: Vector, b: Vector, u: Vector)
    requires |a| == |b|
    ensures Dot(Minus(a, b), u) == Dot(a, u) - Dot(b, u)
  {
    if a != [] && u != [] {
      DotMinus(a[1..], b[1..], u[1..]);
      assert Minus(a, b)[1..] == Minus(a[1..], b[1..]);
      assert (a[0] - b[0]) * u[0] == a[0] * u[0] - b[0] * u[0];
    }
  }

  lemma {:induction false} MinusLength(a: Vector, b: Vector)
    requires |a| == |b|
    ensures |Minus(a, b)| == |a|
  {
    if a != [] {
      MinusLength(a[1..], b[1..]);
    }
  }

  lemma NormMinus(a: Vector, b: Vector)
    requires |a| == |b|
    ensures SquaredNorm(Minus(a, b)) == SquaredNorm(a) + SquaredNorm(b) - 2.0 * Dot(a, b)
  {
    var e := Minus(a, b);
    DotMinus(a, b, e);
    DotSymmetric(a, e);
    DotSymmetric(b, e);
    DotMinus(a, b, a);
    DotMinus(a, b, b);
    DotSymmetric(b, a);
  }

  lemma {:induction false} ScaleLength(c: real, a: Vector)
    ensures |Scale(c, a)| == |a|
  {
    if a != [] {
      ScaleLength(c, a[1..]);
    }
  }

  predicate IsBalanceNorm(e: real, x: real, y: real, n: real, m: real, xc: real) {
    e == y * y * n + x * x * m - 2.0 * (y * xc)
  }

  lemma CauchyFor(a: Vector, b: Vector, d: real, n: real, m: real)
    requires d == Dot(a, b) && n == SquaredNorm(a) && m == SquaredNorm(b)
    ensures d * d <= n * m
  {
    CauchySchwarz(a, b);
  }

  lemma DotScaleFor(c: real, a: Vector, b: Vector, d: real)
    requires d == Dot(a, b)
    ensures Dot(Scale(c, a), b) == c * d
  {
    DotScale(c, a, b);
  }

  lemma NormScaleFor(c: real, a: Vector, n: real)
    requires n == SquaredNorm(a)
    ensures SquaredNorm(Scale(c, a)) == c * c * n
  {
    NormScale(c, a);
  }

  /** The vector y*a - x*b against any u. */
  lemma BalanceDot(a: Vector, b: Vector, u: Vector, x: real, y: real, p: real, q: real)
    requires |a| == |b| == |Scale(y, a)| == |Scale(x, b)|
    requires p == Dot(a, u) && q == Dot(b, u)
    ensures Dot(Minus(Scale(y, a), Scale(x, b)), u) == y * p - x * q
  {
    DotMinus(Scale(y, a), Scale(x, b), u);
    DotScaleFor(y, a, u, p);
    DotScaleFor(x, b, u, q);
  }

  /** And its length. */
  lemma BalanceNorm(a: Vector, b: Vector, x: real, y: real, n: real, m: real, c: real) returns (xc: real)
    requires |a| == |b| == |Scale(y, a)| == |Scale(x, b)|
    requires n == SquaredNorm(a) && m == SquaredNorm(b) && c == Dot(a, b)
    ensures xc == x * c
    ensures IsBalanceNorm(SquaredNorm(Minus(Scale(y, a), Scale(x, b))), x, y, n, m, xc)
  {
    NormMinus(Scale(y, a), Scale(x, b));
    NormScaleFor(y, a, n);
    NormScaleFor(x, b, m);
    xc := Dot(a, Scale(x, b));
    DotScaleFor(y, a, Scale(x, b), xc);
    DotSymmetric(a, Scale(x, b));
    DotSymmetric(b, a);
    DotScaleFor(x, b, a, c);
  }

  lemma Balanced(a: Vector, b: Vector, u: Vector, x: real, y: real, p: real, q: real, c: real,
                 n: real, m: real, k: real)
    requires |a| == |b| && x * x == n && y * y == m
    requires p == Dot(a, u) && q == Dot(b, u) && c == Dot(a, b)
    requires n == SquaredNorm(a) && m == SquaredNorm(b) && k == SquaredNorm(u)
    ensures BalancedBound(x, y, p, q, c, k)
  {
    ScaleLength(y, a);
    ScaleLength(x, b);
    var e := Minus(Scale(y, a), Scale(x, b));
    BalanceDot(a, b, u, x, y, p, q);
    var xc := BalanceNorm(a, b, x, y, n, m, c);
    var d, ee := Dot(e, u), SquaredNorm(e);
    CauchyFor(e, u, d, ee, k);
    BalancedNumbers(x, y, p, q, c, n, m, k, d, ee, xc);
  }

  predicate BalancedBound(x: real, y: real, p: real, q: real, c: real, n: real) {
    (y * p - x * q) * (y * p - x * q) <= 2.0 * (x * y) * (x * y - c) * n
  }

  lemma BalancedNumbers(x: real, y: real, p: real, q: real, c: real, n: real, m: real, k: real, d: real, e: real,
                        xc: real)
    requires x * x == n && y * y == m && d == y * p - x * q && d * d <= e * k
    requires xc == x * c && IsBalanceNorm(e, x, y, n, m, xc)
    ensures BalancedBound(x, y, p, q, c, k)
  {
    BalancedNorm(x, y, n, m, c, e, xc);
  }

  lemma BalancedNorm(x: real, y: real, n: real, m: real, c: real, e: real, xc: real)
    requires x * x == n && y * y == m && xc == x * c && IsBalanceNorm(e, x, y, n, m, xc)
    ensures e == 2.0 * (x * y) * (x * y - c)
  {
    var p := x * y;
    Regroup(x, y);
    assert y * y * n == p * p;
    assert x * x * m == p * p;
    assert y * xc == p * c;
    assert 2.0 * p * (p - c) == 2.0 * (p * p) - 2.0 * (p * c);
  }

  /** Scores s and t of a and b with u. */
  lemma GapBound(x: real, y: real, z: real, zz: real, p: real, q: real, c: real, s: real, t: real)
    requires x > 0.0 && y > 0.0 && zz == z * z && zz > 0.0
    requires s * (x * z) == p && t * (y * z) == q
    requires BalancedBound(x, y, p, q, c, zz)
    ensures (x * y) * ((s - t) * (s - t)) <= 2.0 * (x * y - c)
  {
    var m, g := x * y, s - t;
    Positive(x, y);
    var f := m * zz;
    Positive(m, zz);
    Difference(x, y, z, p, q, s, t);
    SquareOfProduct(m, z, g);
    Reorder(m, m - c, zz);
    CancelOrder(f, m * (g * g), 2.0 * (m - c));
  }

  lemma Difference(x: real, y: real, z: real, p: real, q: real, s: real, t: real)
    requires s * (x * z) == p && t * (y * z) == q
    ensures y * p - x * q == x * y * z * (s - t)
  {
    var m := x * y * z;
    assert y * p == m * s;
    assert x * q == m * t;
    assert m * (s - t) == m * s - m * t;
  }

  lemma Reorder(m: real, g: real, zz: real)
    ensures 2.0 * m * g * zz == (m * zz) * (2.0 * g)
  {
    var f := m * zz;
    assert m * g * zz == f * g;
  }

  lemma SquareOfProduct(m: real, z: real, g: real)
    ensures (m * z * g) * (m * z * g) == m * (z * z) * (m * (g * g))
  {
    var a := m * z;
    Regroup(a, g);
    Regroup(m, z);
    assert (m * m) * (z * z) == m * (z * z) * m;
    assert m * (z * z) * m * (g * g) == m * (z * z) * (m * (g * g));
  }

  /** 2gx <= 4yD for D = (x-y)^2 + 2g and 0 <= g <= 2xy. */
  lemma GapOfLengths(x: real, y: real, g: real)
    requires x > 0.0 && y > 0.0 && 0.0 <= g <= 2.0 * (x * y)
    ensures x * (2.0 * g) <= y * (4.0 * (x * x + y * y - 2.0 * (x * y) + 2.0 * g))
  {
    var h := 2.0 * (x * y);
    Positive(x, y);
    Positive(y, y);
    SquareNotNegative(x - y);
    var r := x * x + y * y - 2.0 * (x * y);
    assert r == (x - y) * (x - y);
    NotNegative(y, r);
    var b := 8.0 * y - 2.0 * x;
    assert y * (4.0 * (r + 2.0 * g)) - x * (2.0 * g) == 4.0 * (y * r) + b * g;
    if b >= 0.0 {
      NotNegative(b, g);
    } else {
      NotNegative(-b, h - g);
      assert -b * (h - g) == b * g - b * h;
      AtTheFarEnd(x, y);
    }
  }

  lemma AtTheFarEnd(x: real, y: real)
    requires x > 0.0 && y > 0.0
    ensures 4.0 * (y * (x * x + y * y - 2.0 * (x * y))) + (8.0 * y - 2.0 * x) * (2.0 * (x * y)) >= 0.0
  {
    var yy, xy := y * y, x * y;
    Positive(y, y);
    Positive(y, yy);
    Positive(x, y);
    Positive(xy, y);
    assert y * (x * x) == x * xy;
    assert y * (x * x + yy - 2.0 * xy) == x * xy + y * yy - 2.0 * (y * xy);
    assert (8.0 * y - 2.0 * x) * (2.0 * xy) == 16.0 * (y * xy) - 4.0 * (x * xy);
  }

  /** The scores of two nearby vectors with any third one: their difference is at most twice the
      distance of the two, relative to the length of the first. */
  lemma NearbyScores(sqrt: real -> real, a: Vector, b: Vector, u: Vector)
    requires IsSquareRoot(sqrt) && |a| == |b|
    ensures GapIsSmall(SquaredNorm(a), Cosine(sqrt, a, u), Cosine(sqrt, b, u), SquaredNorm(Minus(a, b)))
  {
    NormMinus(a, b);
    NearbyScoresByDot(sqrt, a, b, u, SquaredNorm(Minus(a, b)));
  }

  lemma NearbyScoresByDot(sqrt: real -> real, a: Vector, b: Vector, u: Vector, d: real)
    requires IsSquareRoot(sqrt) && |a| == |b|
    requires d == SquaredNorm(a) + SquaredNorm(b) - 2.0 * Dot(a, b)
    ensures GapIsSmall(SquaredNorm(a), Cosine(sqrt, a, u), Cosine(sqrt, b, u), d)
  {
    var p, q, c, n, m, k := Dot(a, u), Dot(b, u), Dot(a, b), SquaredNorm(a), SquaredNorm(b), SquaredNorm(u);
    var x := RootOf(sqrt, a, n);
    var y := RootOf(sqrt, b, m);
    var z := RootOf(sqrt, u, k);
    CauchyFor(a, b, c, n, m);
    CosineAtMostOne(sqrt, a, u);
    Balanced(a, b, u, x, y, p, q, c, n, m, k);
    NearbyQuotients(x, y, z, p, q, c, n, m, k, d);
  }

  lemma RootOf(sqrt: real -> real, a: Vector, n: real) returns (x: real)
    requires IsSquareRoot(sqrt) && n == SquaredNorm(a)
    ensures x == sqrt(n) && x >= 0.0 && x * x == n && n >= 0.0
  {
    NormNotNegative(a);
    x := sqrt(n);
  }

  predicate GapIsSmall(n: real, s: real, t: real, d: real) {
    n * ((s - t) * (s - t)) <= 4.0 * d
  }

  lemma NearbyQuotients(x: real, y: real, z: real, p: real, q: real, c: real, n: real, m: real, k: real, d: real)
    requires x >= 0.0 && y >= 0.0 && z >= 0.0 && x * x == n && y * y == m && z * z == k
    requires n >= 0.0 && m >= 0.0 && k >= 0.0
    requires d == n + m - 2.0 * c && c * c <= n * m
    requires BalancedBound(x, y, p, q, c, k)
    requires -1.0 <= Quotient(p, x, z) <= 1.0
    ensures GapIsSmall(n, Quotient(p, x, z), Quotient(q, y, z), d)
  {
    var s, t := Quotient(p, x, z), Quotient(q, y, z);
    DistanceNotNegative(x, y, n, m, c);
    if x == 0.0 {
      SquareOfZero(x, n);
      NoLength(s, t, d);
    } else if z == 0.0 {
      NoGap(n, s, d);
    } else if y == 0.0 {
      SquareOfZero(y, m);
      Vanishing(n, m, c, d, s);
    } else {
      ApartFromZero(x, y, z, p, q, c, n, m, k, d, s, t);
    }
  }

  lemma SquareOfZero(x: real, n: real)
    requires x == 0.0 && x * x == n
    ensures n == 0.0
  {
  }

  lemma NoLength(s: real, t: real, d: real)
    requires d >= 0.0
    ensures GapIsSmall(0.0, s, t, d)
  {
  }

  lemma NoGap(n: real, s: real, d: real)
    requires d >= 0.0
    ensures GapIsSmall(n, s, s, d)
  {
  }

  lemma DistanceNotNegative(x: real, y: real, n: real, m: real, c: real)
    requires x >= 0.0 && y >= 0.0 && x * x == n && y * y == m && c * c <= n * m
    ensures n + m - 2.0 * c >= 0.0
  {
    var p := x * y;
    NotNegative(x, y);
    Regroup(x, y);
    assert n * m == p * p;
    SquareOrder(c, p);
    SquareNotNegative(x - y);
    assert (x - y) * (x - y) == n + m - 2.0 * p;
  }

  lemma Vanishing(n: real, m: real, c: real, d: real, s: real)
    requires n >= 0.0 && m == 0.0 && d == n + m - 2.0 * c && c * c <= n * m && -1.0 <= s <= 1.0
    ensures GapIsSmall(n, s, 0.0, d)
  {
    assert n * m == 0.0;
    ZeroSquare(c);
    OfUnit(n, s);
  }

  lemma ApartFromZero(x: real, y: real, z: real, p: real, q: real, c: real, n: real, m: real, k: real, d: real,
                      s: real, t: real)
    requires x > 0.0 && y > 0.0 && z > 0.0 && x * x == n && y * y == m && z * z == k
    requires d == n + m - 2.0 * c && c * c <= n * m
    requires BalancedBound(x, y, p, q, c, k)
    requires s == Quotient(p, x, z) && t == Quotient(q, y, z)
    ensures GapIsSmall(n, s, t, d)
  {
    Positive(x, z);
    Positive(y, z);
    Positive(z, z);
    Positive(x, y);
    Rejoin(p, x * z);
    Rejoin(q, y * z);
    GapBound(x, y, z, k, p, q, c, s, t);
    Regroup(x, y);
    SquareOrder(c, x * y);
    GapOfLengths(x, y, x * y - c);
    LastStep(x, y, (s - t) * (s - t), x * y - c, d);
  }

  lemma Rejoin(p: real, m: real)
    requires m != 0.0
    ensures p / m * m == p
  {
  }

  lemma OfUnit(n: real, s: real)
    requires n >= 0.0 && -1.0 <= s <= 1.0
    ensures n * (s * s) <= 4.0 * n
  {
    NotNegative(1.0 - s, 1.0 + s);
    assert (1.0 - s) * (1.0 + s) == 1.0 - s * s;
    NotNegative(n, 1.0 - s * s);
    assert n * (1.0 - s * s) == n - n * (s * s);
  }

  lemma LastStep(x: real, y: real, k: real, g: real, d: real)
    requires x > 0.0 && y > 0.0 && (x * y) * k <= 2.0 * g && x * (2.0 * g) <= y * (4.0 * d)
    ensures x * x * k <= 4.0 * d
  {
    NotNegative(x, 2.0 * g - (x * y) * k);
    assert x * (2.0 * g - (x * y) * k) == x * (2.0 * g) - x * ((x * y) * k);
    assert x * ((x * y) * k) == y * (x * x * k);
    CancelOrder(y, x * x * k, 4.0 * d);
  }
}
