/** Elementary operations on reals shared by the models; Go's float64 is modelled as `real`. */
module Reals {

  function Min(x: real, y: real): real {
    if x < y then x else y
  }

  function Max(x: real, y: real): real {
    if x < y then y else x
  }

  function Abs(x: real): real {
    if x < 0.0 then -x else x
  }

  /** A product that proofs can treat as one number. */
  function Times(x: real, y: real): real {
    x * y
  }

  function Pow(x: real, k: nat): real {
    if k == 0 then 1.0 else x * Pow(x, k - 1)
  }

  lemma MulMono(a: real, b: real, c: real)
    requires 0.0 <= c && a <= b
    ensures a * c <= b * c && c * a <= c * b
  {
  }

  /** Dividing by a positive number scales a distance. */
  lemma AbsDiv(x: real, y: real, m: real)
    requires 0.0 < m
    ensures Abs(x / m - y / m) == Abs(x - y) / m
  {
    assert x / m - y / m == (x - y) / m;
    if x - y >= 0.0 {
      assert (x - y) / m >= 0.0;
    } else {
      assert (x - y) / m < 0.0;
    }
  }

  lemma AbsTimes(x: real, y: real)
    ensures Abs(x * y) == Abs(x) * Abs(y)
  {
  }

  /** Scaling by `c * r` multiplies a distance by at most `c * Abs(r)`. */
  lemma ScaledGap(c: real, r: real, x: real, y: real, d: real)
    requires 0.0 <= c && Abs(x - y) <= d
    ensures Abs(c * r * x - c * r * y) <= c * Abs(r) * d
  {
    var k := c * r;
    assert Abs(k) == c * Abs(r) by { AbsTimes(c, r); }
    AbsTimes(k, x - y);
    MulMono(Abs(x - y), d, Abs(k));
    assert k * (x - y) == k * x - k * y;
  }

  /** A distance of at most `g * d`, divided by `m`, is at most `gain * d` when `g <= gain * m`. */
  lemma GapOver(x: real, y: real, g: real, gain: real, m: real, d: real)
    requires 0.0 < m && 0.0 <= d && Abs(x - y) <= g * d && g <= gain * m
    ensures Abs(x / m - y / m) <= gain * d
  {
    AbsDiv(x, y, m);
    MulMono(g, gain * m, d);
    var q := Abs(x - y) / m;
    assert q * m == Abs(x - y);
    assert (gain * m) * d == (gain * d) * m;
    if q > gain * d {
      assert q * m > (gain * d) * m;
    }
  }

  lemma {:induction false} PowNonNegative(x: real, k: nat)
    requires 0.0 <= x
    ensures 0.0 <= Pow(x, k)
  {
    if k > 0 {
      PowNonNegative(x, k - 1);
    }
  }

  lemma TimesNonNegative(x: real, y: real)
    requires 0.0 <= x && 0.0 <= y
    ensures 0.0 <= Times(x, y)
  {
  }

  lemma MulStrict(a: real, b: real, c: real)
    requires a < b && 0.0 < c
    ensures a * c < b * c && Times(a, c) < Times(b, c)
  {
  }

  lemma QuotientBound(x: real, n: real, m: real)
    requires 0.0 < m && x * m <= n
    ensures x <= n / m
  {
    var q := n / m;
    assert q * m == n;
    if q < x {
      MulStrict(q, x, m);
    }
  }

  lemma {:induction false} PowAdd(x: real, j: nat, k: nat)
    ensures Pow(x, j + k) == Pow(x, j) * Pow(x, k)
  {
    if j > 0 {
      PowAdd(x, j - 1, k);
    }
  }
}
