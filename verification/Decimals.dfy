/** Decimal notation of natural numbers: str(n), '%0wd' and int(s) on digits. */
module Decimals {
  predicate IsDigit(c: char) {
    '0' <= c <= '9'
  }

  function Digit(d: nat): (c: char)
    requires d < 10
    ensures IsDigit(c) && DigitValue(c) == d
  {
    '0' + d as char
  }

  function DigitValue(c: char): (d: nat)
    requires IsDigit(c)
    ensures d < 10
  {
    c as int - '0' as int
  }

  predicate AllDigits(s: string) {
    forall i :: 0 <= i < |s| ==> IsDigit(s[i])
  }

  function Value(s: string): nat
    requires AllDigits(s)
  {
    if s == "" then 0 else 10 * Value(s[..|s| - 1]) + DigitValue(s[|s| - 1])
  }

  /** No leading zeros, except that zero is one digit. */
  function Decimal(n: nat): (s: string)
    ensures s != "" && AllDigits(s)
  {
    if n < 10 then [Digit(n)] else Decimal(n / 10) + [Digit(n % 10)]
  }

  /** At least width digits. */
  function Padded(n: nat, width: nat): (s: string)
    ensures AllDigits(s) && |s| >= width
  {
    if width == 0 then (if n == 0 then "" else Decimal(n))
    else Padded(n / 10, width - 1) + [Digit(n % 10)]
  }

  function Pow10(k: nat): nat {
    if k == 0 then 1 else 10 * Pow10(k - 1)
  }

  lemma {:induction false} DecimalValue(n: nat)
    ensures Value(Decimal(n)) == n
  {
    if n >= 10 {
      DecimalValue(n / 10);
      assert Decimal(n)[..|Decimal(n)| - 1] == Decimal(n / 10);
    } else {
      assert Decimal(n)[..0] == "";
    }
  }

  lemma {:induction false} PaddedValue(n: nat, width: nat)
    ensures Value(Padded(n, width)) == n
  {
    if width > 0 {
      PaddedValue(n / 10, width - 1);
      assert Padded(n, width)[..|Padded(n, width)| - 1] == Padded(n / 10, width - 1);
    } else if n > 0 {
      DecimalValue(n);
    }
  }

  /** The width is exact as long as the number fits, and only then. */
  lemma {:induction false} PaddedWidth(n: nat, width: nat)
    ensures |Padded(n, width)| == width <==> n < Pow10(width)
  {
    if width > 0 {
      PaddedWidth(n / 10, width - 1);
      assert n / 10 < Pow10(width - 1) <==> n < Pow10(width);
    }
  }

  /** Digits are read and written back. */
  lemma {:induction false} PaddedOfValue(s: string)
    requires AllDigits(s)
    ensures Padded(Value(s), |s|) == s && Value(s) < Pow10(|s|)
  {
    if s != "" {
      var n := |s| - 1;
      PaddedOfValue(s[..n]);
      assert Value(s) / 10 == Value(s[..n]) && Value(s) % 10 == DigitValue(s[n]);
      assert s == s[..n] + [s[n]];
    }
  }

  // ---------- string order ----------

  predicate Precedes(a: string, b: string) {
    if b == "" then false
    else if a == "" then true
    else if a[0] != b[0] then a[0] < b[0]
    else Precedes(a[1..], b[1..])
  }

  lemma {:induction false} PrecedesCommon(a: string, x: string, y: string)
    ensures Precedes(a + x, a + y) <==> Precedes(x, y)
  {
    if a == "" {
      assert a + x == x && a + y == y;
    } else {
      PrecedesCommon(a[1..], x, y);
      assert (a + x)[1..] == a[1..] + x && (a + y)[1..] == a[1..] + y;
    }
  }

  /** Between different strings of one length the order is decided before anything that follows. */
  lemma {:induction false} PrecedesSameLength(a: string, b: string, x: string, y: string)
    requires |a| == |b| && a != b
    ensures Precedes(a + x, b + y) <==> Precedes(a, b)
  {
    if a[0] == b[0] {
      assert a[1..] != b[1..] by {
        assert a == [a[0]] + a[1..] && b == [b[0]] + b[1..];
      }
      PrecedesSameLength(a[1..], b[1..], x, y);
      assert (a + x)[1..] == a[1..] + x && (b + y)[1..] == b[1..] + y;
    }
  }

  /** String order of equally wide numbers is numeric order. */
  lemma {:induction false} PaddedOrder(n: nat, m: nat, width: nat)
    requires n < Pow10(width) && m < Pow10(width)
    ensures Precedes(Padded(n, width), Padded(m, width)) <==> n < m
  {
    if width > 0 {
      var a, b := Padded(n / 10, width - 1), Padded(m / 10, width - 1);
      var x, y := [Digit(n % 10)], [Digit(m % 10)];
      PaddedWidth(n / 10, width - 1);
      PaddedWidth(m / 10, width - 1);
      if n / 10 == m / 10 {
        PrecedesCommon(a, x, y);
        assert x[1..] == "" && y[1..] == "";
      } else {
        PaddedOrder(n / 10, m / 10, width - 1);
        PaddedValue(n / 10, width - 1);
        PaddedValue(m / 10, width - 1);
        PrecedesSameLength(a, b, x, y);
      }
    }
  }
}
