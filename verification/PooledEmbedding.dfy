/** The vector that stands for a whole document (compute_pooled_embedding in
    backend/apps/knowledge/similarity.py), over exact reals. */
module PooledEmbedding {
  import opened Options
  import opened RealArithmetic
  import opened Rounding
  import opened Vectors

  predicate IsUsable(embedding: Option<Vector>) {
    embedding.Some? && exists i :: 0 <= i < |embedding.value| && embedding.value[i] != 0.0
  }

  function Usable(chunks: seq<Option<Vector>>): seq<Vector> {
    if chunks == [] then []
    else Usable(chunks[..|chunks| - 1]) +
         (if IsUsable(chunks[|chunks| - 1]) then [chunks[|chunks| - 1].value] else [])
  }

  function Zeros(n: nat): Vector {
    seq(n, _ => 0.0)
  }

  function Sum(a: Vector, b: Vector): Vector
    requires |a| == |b|
  {
    seq(|a|, i requires 0 <= i < |a| => a[i] + b[i])
  }

  /** The sum of the vectors of dimension dim; the others are left out. */
  function Total(vectors: seq<Vector>, dim: nat): (total: Vector)
    ensures |total| == dim
  {
    if vectors == [] then Zeros(dim)
    else
      var rest, last := Total(vectors[..|vectors| - 1], dim), vectors[|vectors| - 1];
      if |last| == dim then Sum(rest, last) else rest
  }

  function OfDimension(vectors: seq<Vector>, dim: nat): nat {
    if vectors == [] then 0
    else OfDimension(vectors[..|vectors| - 1], dim) + (if |vectors[|vectors| - 1]| == dim then 1 else 0)
  }

  /** The pooled vector before it is rounded: the sum is divided by the number of all usable
      vectors, those it left out included. */
  function Average(vectors: seq<Vector>): Vector
    requires vectors != []
  {
    Scale(1.0 / |vectors| as real, Total(vectors, |vectors[0]|))
  }

  /** The mean of the vectors of the first one's dimension. */
  function Mean(vectors: seq<Vector>): Vector
    requires vectors != []
  {
    FirstCounts(vectors);
    Scale(1.0 / OfDimension(vectors, |vectors[0]|) as real, Total(vectors, |vectors[0]|))
  }

  const DECIMALS_SCALE: nat := 100000000

  /** Each coordinate to eight decimals. */
  function Rounded(v: Vector): (r: Vector)
    ensures |r| == |v|
  {
    seq(|v|, i requires 0 <= i < |v| => Round(v[i], DECIMALS_SCALE))
  }

  function Pooled(chunks: seq<Option<Vector>>): Option<Vector> {
    var vectors := Usable(chunks);
    if vectors == [] then None else Some(Rounded(Average(vectors)))
  }

  lemma {:induction false} FirstCounts(vectors: seq<Vector>)
    requires vectors != []
    ensures OfDimension(vectors, |vectors[0]|) > 0
  {
    if |vectors| > 1 {
      FirstCounts(vectors[..|vectors| - 1]);
    }
  }

  // ---------- what the sum is ----------

  /** The sum of two lists is the sum of their sums, in every coordinate; */
  lemma {:induction false} TotalAppend(a: seq<Vector>, b: seq<Vector>, dim: nat, i: nat)
    requires i < dim
    ensures Total(a + b, dim)[i] == Total(a, dim)[i] + Total(b, dim)[i]
  {
    if b == [] {
      assert a + b == a;
    } else {
      var n := |b| - 1;
      assert (a + b)[..|a + b| - 1] == a + b[..n];
      TotalAppend(a, b[..n], dim, i);
    }
  }

  /** that of one vector is the vector, or nothing for another dimension. */
  lemma TotalOfOne(v: Vector, dim: nat)
    ensures Total([v], dim) == if |v| == dim then v else Zeros(dim)
  {
    assert [v][..0] == [];
  }

  // ---------- the order of the chunks ----------

  lemma {:induction false} UsableAppend(a: seq<Option<Vector>>, b: seq<Option<Vector>>)
    ensures Usable(a + b) == Usable(a) + Usable(b)
  {
    if b == [] {
      assert a + b == a;
    } else {
      var n := |b| - 1;
      assert (a + b)[..|a + b| - 1] == a + b[..n];
      UsableAppend(a, b[..n]);
    }
  }

  lemma UsableOfThree(a: seq<Option<Vector>>, b: seq<Option<Vector>>, c: seq<Option<Vector>>)
    ensures Usable(a + b + c) == Usable(a) + Usable(b) + Usable(c)
    ensures Usable(a + c) == Usable(a) + Usable(c)
  {
    UsableAppend(a, b);
    UsableAppend(a + b, c);
    UsableAppend(a, c);
  }

  lemma UsableOfOne(x: Option<Vector>)
    ensures Usable([x]) == if IsUsable(x) then [x.value] else []
  {
    assert [x][..0] == [];
  }

  /** A chunk without an embedding, or with a vanishing one, does not count at all. */
  lemma {:induction false} UnusableIsIgnored(a: seq<Option<Vector>>, x: Option<Vector>, b: seq<Option<Vector>>)
    requires x.Some? ==> forall i :: 0 <= i < |x.value| ==> x.value[i] == 0.0
    ensures Pooled(a + [x] + b) == Pooled(a + b)
  {
    UsableOfOne(x);
    UsableOfThree(a, [x], b);
    assert Usable(a) + [] == Usable(a);
  }

  function Without<T>(s: seq<T>, k: nat): seq<T>
    requires k < |s|
  {
    s[..k] + s[k + 1..]
  }

  lemma WithoutOne<T>(s: seq<T>, k: nat)
    requires k < |s|
    ensures multiset(s) == multiset(Without(s, k)) + multiset([s[k]])
  {
    assert s == s[..k] + ([s[k]] + s[k + 1..]);
  }

  lemma Cancel<T>(a: multiset<T>, b: multiset<T>, c: multiset<T>)
    requires a + c == b + c
    ensures a == b
  {
    assert a == a + c - c;
  }

  /** In lists of the same elements the last element of one stands somewhere in the other, and the
      rests are of the same elements again. */
  lemma LastIsSomewhere<T>(a: seq<T>, b: seq<T>) returns (k: nat)
    requires a != [] && multiset(a) == multiset(b)
    ensures k < |b| && b[k] == a[|a| - 1]
    ensures multiset(Without(a, |a| - 1)) == multiset(Without(b, k))
  {
    var n := |a| - 1;
    assert a[n] in multiset(b);
    k :| 0 <= k < |b| && b[k] == a[n];
    WithoutOne(a, n);
    WithoutOne(b, k);
    Cancel(multiset(Without(a, n)), multiset(Without(b, k)), multiset([a[n]]));
  }

  lemma SameLength<T>(a: seq<T>, b: seq<T>)
    requires multiset(a) == multiset(b)
    ensures |a| == |b|
  {
    assert |multiset(a)| == |multiset(b)|;
  }

  lemma TotalWithout(a: seq<Vector>, k: nat, dim: nat, i: nat)
    requires k < |a| && i < dim
    ensures Total(a, dim)[i] == Total(Without(a, k), dim)[i] + Total([a[k]], dim)[i]
  {
    TotalAppend(a[..k], a[k + 1..], dim, i);
    TotalAppend(a[..k] + [a[k]], a[k + 1..], dim, i);
    TotalAppend(a[..k], [a[k]], dim, i);
    assert a == a[..k] + [a[k]] + a[k + 1..];
  }

  lemma {:induction false} TotalInAnyOrder(a: seq<Vector>, b: seq<Vector>, dim: nat, i: nat)
    requires multiset(a) == multiset(b) && i < dim
    ensures Total(a, dim)[i] == Total(b, dim)[i]
  {
    if a == [] {
      SameLength(a, b);
    } else {
      var n := |a| - 1;
      var k := LastIsSomewhere(a, b);
      TotalInAnyOrder(Without(a, n), Without(b, k), dim, i);
      TotalWithout(a, n, dim, i);
      TotalWithout(b, k, dim, i);
    }
  }

  lemma SplitAt<T>(s: seq<T>, k: nat)
    requires k < |s|
    ensures s == s[..k] + [s[k]] + s[k + 1..]
  {
  }

  lemma UsableWithout(a: seq<Option<Vector>>, k: nat)
    requires k < |a|
    ensures exists before, after ::
      && Usable(a) == before + Usable([a[k]]) + after
      && Usable(Without(a, k)) == before + after
  {
    SplitAt(a, k);
    UsableOfThree(a[..k], [a[k]], a[k + 1..]);
    var before, after := Usable(a[..k]), Usable(a[k + 1..]);
    assert Usable(a) == before + Usable([a[k]]) + after;
  }

  lemma UsableCounts(a: seq<Option<Vector>>, k: nat)
    requires k < |a|
    ensures multiset(Usable(a)) == multiset(Usable(Without(a, k))) + multiset(Usable([a[k]]))
  {
    UsableWithout(a, k);
    var before, after :| Usable(a) == before + Usable([a[k]]) + after && Usable(Without(a, k)) == before + after;
    MiddleMoved(before, Usable([a[k]]), after);
  }

  lemma MiddleMoved<T>(a: seq<T>, b: seq<T>, c: seq<T>)
    ensures multiset(a + b + c) == multiset(a + c) + multiset(b)
  {
  }

  lemma {:induction false} UsableInAnyOrder(a: seq<Option<Vector>>, b: seq<Option<Vector>>)
    requires multiset(a) == multiset(b)
    ensures multiset(Usable(a)) == multiset(Usable(b))
  {
    if a == [] {
      SameLength(a, b);
    } else {
      var n := |a| - 1;
      var k := LastIsSomewhere(a, b);
      UsableInAnyOrder(Without(a, n), Without(b, k));
      UsableCounts(a, n);
      UsableCounts(b, k);
    }
  }

  /** The order of the chunks decides only by the dimension of the first usable one: in any other
      order that starts with the same dimension they have the same pooled vector, */
  lemma {:induction false} PooledInAnyOrder(a: seq<Option<Vector>>, b: seq<Option<Vector>>)
    requires multiset(a) == multiset(b)
    ensures Pooled(a).None? <==> Pooled(b).None?
    ensures Usable(a) != [] && Usable(b) != [] && |Usable(a)[0]| == |Usable(b)[0]| ==> Pooled(a) == Pooled(b)
  {
    var u, v := Usable(a), Usable(b);
    UsableInAnyOrder(a, b);
    SameLength(u, v);
    if u != [] && |u[0]| == |v[0]| {
      var dim := |u[0]|;
      forall i | 0 <= i < dim ensures Total(u, dim)[i] == Total(v, dim)[i] {
        TotalInAnyOrder(u, v, dim, i);
      }
      assert Total(u, dim) == Total(v, dim);
    }
  }

  /** so in every order, if they all have one dimension. */
  lemma {:induction false} OneDimensionInAnyOrder(a: seq<Option<Vector>>, b: seq<Option<Vector>>, dim: nat)
    requires multiset(a) == multiset(b)
    requires forall i :: 0 <= i < |a| && a[i].Some? ==> |a[i].value| == dim
    ensures Pooled(a) == Pooled(b)
  {
    PooledInAnyOrder(a, b);
    UsableInAnyOrder(a, b);
    UsableAreChunks(a);
    if Usable(a) != [] && Usable(b) != [] {
      assert Usable(a)[0] in Usable(a) && Usable(b)[0] in multiset(Usable(b));
      assert Usable(b)[0] in Usable(a);
    }
  }

  lemma {:induction false} UsableAreChunks(chunks: seq<Option<Vector>>)
    ensures forall v :: v in Usable(chunks) ==> Some(v) in chunks && v != []
  {
    if chunks != [] {
      UsableAreChunks(chunks[..|chunks| - 1]);
    }
  }

  lemma UsableOfTwo(a: Vector, b: Vector)
    requires IsUsable(Some(a)) && IsUsable(Some(b))
    ensures Usable([Some(a), Some(b)]) == [a, b]
  {
    UsableAppend([Some(a)], [Some(b)]);
    UsableOfOne(Some(a));
    UsableOfOne(Some(b));
    assert [Some(a)] + [Some(b)] == [Some(a), Some(b)];
  }

  lemma AverageOfTwo(a: Vector, b: Vector, i: nat)
    requires |a| == |b| && i < |a|
    ensures |Average([a, b])| == |a| && Average([a, b])[i] == 1.0 / 2.0 * (a[i] + b[i])
  {
    TotalOfOne(a, |a|);
    TotalOfOne(b, |a|);
    TotalAppend([a], [b], |a|, i);
    assert [a] + [b] == [a, b];
    ScaleAt(1.0 / 2.0, Total([a, b], |a|), i);
  }

  /** Two unit vectors are pooled to the one half way. */
  lemma {:induction false} HalfWay()
    ensures Pooled([Some([1.0, 0.0]), Some([0.0, 1.0])]) == Some([0.5, 0.5])
  {
    var a, b := [1.0, 0.0], [0.0, 1.0];
    assert a[0] != 0.0 && b[1] != 0.0;
    UsableOfTwo(a, b);
    AverageOfTwo(a, b, 0);
    AverageOfTwo(a, b, 1);
    assert Average([a, b]) == [0.5, 0.5];
    RoundsToHalf();
    assert Rounded([0.5, 0.5]) == [0.5, 0.5];
  }

  lemma RoundsToHalf()
    ensures Round(0.5, DECIMALS_SCALE) == 0.5
  {
    NearestOfWhole(50000000);
    assert 0.5 * 100000000.0 == 50000000.0;
  }

  // ---------- the average and the mean ----------

  /** Dividing by too many vectors alone changes no score. */
  lemma {:induction false} AverageScoresLikeTheMean(sqrt: real -> real, vectors: seq<Vector>, other: Vector)
    requires IsSquareRoot(sqrt) && vectors != []
    ensures Cosine(sqrt, Average(vectors), other) == Cosine(sqrt, Mean(vectors), other)
  {
    FirstCounts(vectors);
    var total := Total(vectors, |vectors[0]|);
    CosineIgnoresScale(sqrt, 1.0 / |vectors| as real, total, other);
    CosineIgnoresScale(sqrt, 1.0 / OfDimension(vectors, |vectors[0]|) as real, total, other);
  }

  lemma {:induction false} AllOfDimension(vectors: seq<Vector>, dim: nat)
    ensures OfDimension(vectors, dim) <= |vectors|
    ensures OfDimension(vectors, dim) == |vectors| <==> forall i :: 0 <= i < |vectors| ==> |vectors[i]| == dim
  {
    if vectors != [] {
      AllOfDimension(vectors[..|vectors| - 1], dim);
    }
  }

  /** The average is the mean exactly if all vectors have the first one's dimension or their sum
      vanishes. */
  lemma {:induction false} AverageIsMeanIff(vectors: seq<Vector>)
    requires vectors != []
    ensures Average(vectors) == Mean(vectors) <==>
      || (forall i :: 0 <= i < |vectors| ==> |vectors[i]| == |vectors[0]|)
      || Total(vectors, |vectors[0]|) == Zeros(|vectors[0]|)
  {
    FirstCounts(vectors);
    var dim := |vectors[0]|;
    AllOfDimension(vectors, dim);
    var total, n, m := Total(vectors, dim), |vectors|, OfDimension(vectors, dim);
    if m < n {
      InverseFalls(n as real, m as real);
      ScalesDiffer(1.0 / n as real, 1.0 / m as real, total);
    }
  }

  lemma {:induction false} ScalesDiffer(p: real, q: real, v: Vector)
    requires p != q
    ensures Scale(p, v) == Scale(q, v) <==> v == Zeros(|v|)
  {
    if v == [] {
      assert Zeros(0) == [];
    } else {
      var rest := v[1..];
      ScaleCons(p, v);
      ScaleCons(q, v);
      ScalesDiffer(p, q, rest);
      ProductsDiffer(p, q, v[0]);
      ConsEqual(p * v[0], q * v[0], Scale(p, rest), Scale(q, rest));
      ConsEqual(v[0], 0.0, rest, Zeros(|rest|));
      assert v == [v[0]] + rest;
      assert |v| == |rest| + 1 && Zeros(|v|) == [0.0] + Zeros(|rest|);
    }
  }

  lemma ScaleCons(c: real, v: Vector)
    requires v != []
    ensures Scale(c, v) == [c * v[0]] + Scale(c, v[1..])
  {
  }

  lemma ConsEqual(x: real, y: real, a: Vector, b: Vector)
    ensures [x] + a == [y] + b <==> x == y && a == b
  {
    if [x] + a == [y] + b {
      assert ([x] + a)[0] == ([y] + b)[0];
      assert ([x] + a)[1..] == a && ([y] + b)[1..] == b;
    }
  }

  lemma ProductsDiffer(p: real, q: real, x: real)
    requires p != q
    ensures p * x == q * x <==> x == 0.0
  {
    if x == 0.0 {
      assert p * x == 0.0 && q * x == 0.0;
    } else {
      NoZeroFactor(p - q, x);
      assert (p - q) * x == p * x - q * x;
    }
  }

  /** After the rounding it can be told: a third of 10^-8 is rounded to nothing. */
  lemma {:induction false} RoundingCanTell(sqrt: real -> real, vectors: seq<Vector>)
    requires IsSquareRoot(sqrt) && vectors == [[0.00000001], [1.0, 0.0], [1.0, 0.0]]
    ensures Cosine(sqrt, Rounded(Average(vectors)), [1.0]) == 0.0
    ensures Cosine(sqrt, Rounded(Mean(vectors)), [1.0]) == 1.0
  {
    TinyTotal(vectors);
    var third, one := Scale(1.0 / 3.0, [0.00000001]), Scale(1.0 / 1.0, [0.00000001]);
    assert third[0] == 1.0 / 3.0 * 0.00000001;
    assert Rounded(third) == [0.0];
    assert Rounded(one) == [0.00000001];
    CosineOfOne(sqrt, 0.0);
    CosineOfOne(sqrt, 0.00000001);
  }

  lemma TinyTotal(vectors: seq<Vector>)
    requires vectors == [[0.00000001], [1.0, 0.0], [1.0, 0.0]]
    ensures Total(vectors, 1) == [0.00000001] && OfDimension(vectors, 1) == 1
  {
    var first, two := vectors[..1], vectors[..2];
    assert two[..1] == first && first[..0] == [];
    assert Total(first, 1) == [0.00000001];
    assert Total(two, 1) == Total(first, 1);
    assert OfDimension(first, 1) == 1 && OfDimension(two, 1) == 1;
  }

  lemma CosineOfOne(sqrt: real -> real, x: real)
    requires IsSquareRoot(sqrt) && x >= 0.0
    ensures Cosine(sqrt, [x], [1.0]) == if x == 0.0 then 0.0 else 1.0
  {
    DotOfOne(x, 1.0);
    DotOfOne(x, x);
    DotOfOne(1.0, 1.0);
    SquareNotNegative(x);
    SameSquare(sqrt(x * x), x, x * x);
    SameSquare(sqrt(1.0), 1.0, 1.0);
    OverItself(x);
  }

  lemma OverItself(x: real)
    requires x >= 0.0
    ensures Quotient(x, x, 1.0) == if x == 0.0 then 0.0 else 1.0
  {
    if x != 0.0 {
      Undo(1.0, x);
      assert 1.0 * x == x * 1.0;
    }
  }

  lemma {:induction false} ScaleAt(c: real, a: Vector, i: nat)
    requires i < |a|
    ensures |Scale(c, a)| == |a| && Scale(c, a)[i] == c * a[i]
  {
    if i > 0 {
      ScaleAt(c, a[1..], i - 1);
    } else if |a| > 1 {
      ScaleAt(c, a[1..], 0);
    }
  }

  /** No stored vector is empty. */
  lemma {:induction false} PooledIsNotEmpty(chunks: seq<Option<Vector>>)
    ensures Pooled(chunks) != Some([])
  {
    UsableAreChunks(chunks);
    var vectors := Usable(chunks);
    if vectors != [] {
      assert vectors[0] in vectors;
      ScaleAt(1.0 / |vectors| as real, Total(vectors, |vectors[0]|), 0);
    }
  }

  /** What is stored is within half of 10^-8 of the exact average, in every coordinate. */
  lemma {:induction false} StoredIsNear(chunks: seq<Option<Vector>>, i: nat)
    requires Usable(chunks) != [] && i < |Average(Usable(chunks))|
    ensures var exact, stored := Average(Usable(chunks)), Pooled(chunks).value;
      |stored| == |exact| && exact[i] - 0.000000005 <= stored[i] <= exact[i] + 0.000000005
  {
    RoundIsNear(Average(Usable(chunks))[i]);
  }

  /** If all usable chunks have the same dimension, what is stored is the rounded mean. */
  lemma {:induction false} EqualDimensionsSuffice(chunks: seq<Option<Vector>>)
    requires var vectors := Usable(chunks);
      vectors != [] && forall i :: 0 <= i < |vectors| ==> |vectors[i]| == |vectors[0]|
    ensures Pooled(chunks) == Some(Rounded(Mean(Usable(chunks))))
  {
    AverageIsMeanIff(Usable(chunks));
  }

  const SQUARED_STEP: real := 0.000000005 * 0.000000005

  lemma {:induction false} NearNorm(a: Vector, b: Vector)
    requires |a| == |b|
    requires forall i :: 0 <= i < |a| ==> a[i] - 0.000000005 <= b[i] <= a[i] + 0.000000005
    ensures SquaredNorm(Minus(a, b)) <= |a| as real * SQUARED_STEP
  {
    if a != [] {
      var rest, last := SquaredNorm(Minus(a[1..], b[1..])), a[0] - b[0];
      NearNorm(a[1..], b[1..]);
      assert Minus(a, b)[1..] == Minus(a[1..], b[1..]);
      SmallSquare(last, 0.000000005);
      OneMoreStep(|a|, rest, last * last, SQUARED_STEP);
    }
  }

  lemma SmallSquare(x: real, e: real)
    requires -e <= x <= e
    ensures x * x <= e * e
  {
    NotNegative(e - x, e + x);
    assert (e - x) * (e + x) == e * e - x * x;
  }

  lemma OneMoreStep(n: nat, rest: real, last: real, step: real)
    requires n > 0 && rest <= (n - 1) as real * step && last <= step
    ensures last + rest <= n as real * step
  {
    assert (n - 1) as real * step == n as real * step - step;
  }

  /** So the rounding moves no score by more than 10^-8 times the square root of the dimension over
      the length of the exact average. */
  lemma {:induction false} StoredScoreIsNear(sqrt: real -> real, chunks: seq<Option<Vector>>, other: Vector)
    requires IsSquareRoot(sqrt) && Usable(chunks) != []
    ensures var exact, stored := Average(Usable(chunks)), Pooled(chunks).value;
      var gap := Cosine(sqrt, exact, other) - Cosine(sqrt, stored, other);
      SquaredNorm(exact) * (gap * gap) <= |exact| as real * 0.0000000000000001
  {
    var exact, stored := Average(Usable(chunks)), Pooled(chunks).value;
    forall i | 0 <= i < |exact| ensures exact[i] - 0.000000005 <= stored[i] <= exact[i] + 0.000000005 {
      StoredIsNear(chunks, i);
    }
    NearNorm(exact, stored);
    NearbyScores(sqrt, exact, stored, other);
    FourSteps(|exact|);
  }

  lemma FourSteps(n: nat)
    ensures 4.0 * (n as real * SQUARED_STEP) == n as real * 0.0000000000000001
  {
  }

  method CollectUsable(chunks: seq<Option<Vector>>) returns (vectors: seq<Vector>)
    ensures vectors == Usable(chunks)
  {
    vectors := [];
    for k := 0 to |chunks|
      invariant vectors == Usable(chunks[..k])
    {
      assert chunks[..k + 1][..k] == chunks[..k];
      if IsUsable(chunks[k]) {
        vectors := vectors + [chunks[k].value];
      }
    }
    assert chunks[..|chunks|] == chunks;
  }

  method AddTo(pooled: array<real>, vec: Vector)
    requires |vec| == pooled.Length
    modifies pooled
    ensures pooled[..] == Sum(old(pooled[..]), vec)
  {
    for i := 0 to |vec|
      invariant forall j :: 0 <= j < i ==> pooled[j] == old(pooled[j]) + vec[j]
      invariant forall j :: i <= j < |vec| ==> pooled[j] == old(pooled[j])
    {
      pooled[i] := pooled[i] + vec[i];
    }
  }

  method Accumulate(pooled: array<real>, vectors: seq<Vector>)
    requires pooled[..] == Zeros(pooled.Length)
    modifies pooled
    ensures pooled[..] == Total(vectors, pooled.Length)
  {
    assert vectors[..0] == [];
    for k := 0 to |vectors|
      invariant pooled[..] == Total(vectors[..k], pooled.Length)
    {
      assert vectors[..k + 1][..k] == vectors[..k];
      if |vectors[k]| == pooled.Length {
        AddTo(pooled, vectors[k]);
      }
    }
    assert vectors[..|vectors|] == vectors;
  }

  lemma DivideIsScale(total: Vector, count: real, mean: Vector)
    requires count > 0.0 && |mean| == |total|
    requires forall i :: 0 <= i < |mean| ==> mean[i] == total[i] / count
    ensures mean == Scale(1.0 / count, total)
  {
    if total != [] {
      ScaleAt(1.0 / count, total, 0);
    }
    forall i | 0 <= i < |mean|
      ensures |Scale(1.0 / count, total)| == |mean| && mean[i] == Scale(1.0 / count, total)[i]
    {
      ScaleAt(1.0 / count, total, i);
      DivideIsMultiply(total[i], count);
    }
  }

  lemma DivideIsMultiply(x: real, count: real)
    requires count > 0.0
    ensures x / count == 1.0 / count * x
  {
    var q := 1.0 / count;
    assert q * count == 1.0;
    assert (q * x) * count == x * (q * count) == x;
    Undo(q * x, count);
  }

  method ComputePooledEmbedding(chunks: seq<Option<Vector>>) returns (result: Option<Vector>)
    ensures result == Pooled(chunks)
  {
    var vectors := CollectUsable(chunks);
    if vectors == [] {
      return None;
    }
    var dim := |vectors[0]|;
    var pooled := new real[dim](_ => 0.0);
    assert pooled[..] == Zeros(dim);
    Accumulate(pooled, vectors);
    var sum, count := pooled[..], |vectors| as real;
    ghost var exact := seq(dim, i requires 0 <= i < dim => sum[i] / count);
    DivideIsScale(sum, count, exact);
    result := Some(seq(dim, i requires 0 <= i < dim => Round(sum[i] / count, DECIMALS_SCALE)));
    assert result.value == Rounded(exact);
  }
}
