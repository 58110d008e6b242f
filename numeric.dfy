// Numeric helpers shared by every stage. Python floats are modelled as
// unbounded reals; NaN and infinity are modelled explicitly where the source
// relies on them (Option for NaN, Extended for `float('inf')`).
module Numeric {

  /** Python's `int(x)` on a float: truncation toward zero. */
  function Trunc(x: real): (n: int)
    ensures x >= 0.0 ==> 0 <= n && n as real <= x < n as real + 1.0
    ensures x < 0.0 ==> n <= 0 && n as real - 1.0 < x <= n as real
  {
    if x >= 0.0 then x.Floor else -((-x).Floor)
  }

  lemma TruncMonotone(x: real, y: real)
    requires 0.0 <= x <= y
    ensures Trunc(x) <= Trunc(y)
  {
  }

  function Abs(x: real): (r: real)
    ensures r >= 0.0 && (r == x || r == -x)
  {
    if x < 0.0 then -x else x
  }

  function Max(x: real, y: real): (r: real)
    ensures r >= x && r >= y && (r == x || r == y)
  {
    if x < y then y else x
  }

  function Min(x: real, y: real): (r: real)
    ensures r <= x && r <= y && (r == x || r == y)
  {
    if x < y then x else y
  }

  function MinInt(x: int, y: int): (r: int)
    ensures r <= x && r <= y && (r == x || r == y)
  {
    if x < y then x else y
  }

  function MaxInt(x: int, y: int): (r: int)
    ensures r >= x && r >= y && (r == x || r == y)
  {
    if x < y then y else x
  }

  /** `np.clip(x, lo, hi)` on one value. */
  function Clip(x: real, lo: real, hi: real): (r: real)
    requires lo <= hi
    ensures lo <= r <= hi
    ensures lo <= x <= hi ==> r == x
    ensures x < lo ==> r == lo
    ensures x > hi ==> r == hi
  {
    if x < lo then lo else if x > hi then hi else x
  }

  /**
   * `np.interp(x, [x0, x1], [y0, y1])`: the piecewise-linear map through two
   * points, held constant outside `[x0, x1]`.
   */
  function Interp(x: real, x0: real, x1: real, y0: real, y1: real): (r: real)
    requires x0 < x1
    ensures x <= x0 ==> r == y0
    ensures x >= x1 ==> r == y1
    ensures Min(y0, y1) <= r <= Max(y0, y1)
  {
    if x <= x0 then y0
    else if x >= x1 then y1
    else
      var t := (x - x0) / (x1 - x0);
      RatioBelowOne(x - x0, x1 - x0);
      InterpolantBetween(t, y0, y1);
      y0 + t * (y1 - y0)
  }

  lemma InterpolantBetween(t: real, y0: real, y1: real)
    requires 0.0 <= t <= 1.0
    ensures Min(y0, y1) <= y0 + t * (y1 - y0) <= Max(y0, y1)
  {
    if y0 <= y1 {
      MulNonneg(1.0 - t, y1 - y0);
      MulNonneg(t, y1 - y0);
    } else {
      MulNonneg(1.0 - t, y0 - y1);
      MulNonneg(t, y0 - y1);
    }
  }

  lemma MulNonneg(a: real, b: real)
    requires a >= 0.0 && b >= 0.0
    ensures a * b >= 0.0
  {
  }

  lemma MulPos(a: real, b: real)
    requires a > 0.0 && b > 0.0
    ensures a * b > 0.0
  {
  }

  /** A quotient by a positive number keeps the bounds its numerator has as multiples. */
  lemma QuotientWithin(s: real, n: real, lo: real, hi: real)
    requires n > 0.0 && n * lo <= s <= n * hi
    ensures lo <= s / n <= hi
  {
    var q := s / n;
    assert q * n == s;
    if q < lo {
      MulPos(lo - q, n);
    }
    if q > hi {
      MulPos(q - hi, n);
    }
  }

  lemma RatioBelowOne(a: real, b: real)
    requires 0.0 < a < b
    ensures 0.0 < a / b < 1.0
  {
    var q := a / b;
    assert q * b == a;
    if q >= 1.0 {
      MulNonneg(q - 1.0, b);
    }
    if q <= 0.0 {
      MulNonneg(-q, b);
    }
  }

  lemma MulMonotone(a: nat, b: nat, p: nat)
    requires a <= b
    ensures a * p <= b * p
  {
    assert b * p == a * p + (b - a) * p;
  }

  lemma MulCancel(q: nat, q': nat, p: nat, r: nat, r': nat)
    requires r < p && r' < p && q * p + r == q' * p + r'
    ensures q == q'
  {
    if q < q' {
      assert (q + 1) * p == q * p + p;
      MulMonotone(q + 1, q', p);
    } else if q' < q {
      assert (q' + 1) * p == q' * p + p;
      MulMonotone(q' + 1, q, p);
    }
  }

  /** Quotient and remainder are the only pair that rebuilds the number. */
  lemma DivUnique(x: nat, p: nat, q: nat, r: nat)
    requires p > 0 && x == q * p + r && r < p
    ensures x / p == q && x % p == r
  {
    MulCancel(q, x / p, p, r, x % p);
  }

  lemma DivAddStep(m: nat, p: nat)
    requires p > 0
    ensures (m + p) / p == m / p + 1 && (m + p) % p == m % p
  {
    var q, r := m / p, m % p;
    assert (q + 1) * p == q * p + p;
    DivUnique(m + p, p, q + 1, r);
  }

  /** Python's `math.ceil(n / p)` for naturals: how many steps `range(0, n, p)` takes. */
  function CeilDiv(n: nat, p: nat): (r: nat)
    requires p > 0
    ensures (r - 1) * p < n <= r * p || (n == 0 && r == 0)
  {
    (n + p - 1) / p
  }

  /** A float that may be `inf` (`float('inf')`, `np.inf`). */
  datatype Extended = Finite(value: real) | Infinity {

    /** Python's `<` on floats where `inf` is the greatest value. */
    predicate Below(other: Extended) {
      match (this, other)
      case (Finite(a), Finite(b)) => a < b
      case (Finite(_), Infinity) => true
      case (Infinity, _) => false
    }

    predicate AtMost(other: Extended) {
      !other.Below(this)
    }
  }
}
