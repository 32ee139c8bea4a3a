/** Python's round(x, k) on exact numbers: the nearest multiple of 10^-k, and of two that are
    equally near the even one. The scale is 10^k. */
module Rounding {
  function Nearest(y: real): int {
    var low := y.Floor;
    var rest := y - low as real;
    if rest < 0.5 || (rest == 0.5 && low % 2 == 0) then low else low + 1
  }

  function Round(x: real, scale: nat): real
    requires scale > 0
  {
    Nearest(x * scale as real) as real / scale as real
  }

  lemma NearestIsNear(y: real)
    ensures y - 0.5 <= Nearest(y) as real <= y + 0.5
  {
  }

  /** Of two whole numbers that are equally near, the even one. */
  lemma TiesGoToEven(n: int)
    ensures Nearest(n as real + 0.5) == if n % 2 == 0 then n else n + 1
  {
    assert (n as real + 0.5).Floor == n;
  }

  lemma NearestIsMonotone(x: real, y: real)
    requires x <= y
    ensures Nearest(x) <= Nearest(y)
  {
    assert x.Floor <= y.Floor;
  }

  lemma NearestOfWhole(n: int)
    ensures Nearest(n as real) == n
  {
    assert (n as real).Floor == n;
  }

  /** To eight decimals a number moves by at most half of 10^-8. */
  lemma RoundIsNear(x: real)
    ensures x - 0.000000005 <= Round(x, 100000000) <= x + 0.000000005
  {
    NearestIsNear(x * 100000000.0);
  }

  /** To four decimals a number stays between two multiples of 10^-4. */
  lemma RoundStaysBetween(x: real, low: int, high: int)
    requires low as real <= x * 10000.0 <= high as real
    ensures low as real <= Round(x, 10000) * 10000.0 <= high as real
  {
    NearestIsMonotone(low as real, x * 10000.0);
    NearestIsMonotone(x * 10000.0, high as real);
    NearestOfWhole(low);
    NearestOfWhole(high);
  }
}
