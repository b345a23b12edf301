/** Scalar operations the vector and distance types apply per component,
    where the scalar is a machine integer whose operators differ from
    Dafny's own. */
module Scalars {

  function Abs(a: int): nat {
    if a < 0 then -a else a
  }

  /** The integer quotient of `a` by `b` rounded toward zero, as an integer
      `/` does on a machine integer (Dafny's own `/` is Euclidean).
      The remainder `a - q * b` is smaller than `b` in magnitude and never
      has the opposite sign to `a`; these three facts fix `q` uniquely
      (TruncDivUnique). */
  function TruncDiv(a: int, b: int): (q: int)
    requires b != 0
    ensures Abs(a - q * b) < Abs(b)
    ensures 0 <= a ==> 0 <= a - q * b
    ensures a <= 0 ==> a - q * b <= 0
  {
    var n := Abs(a) / Abs(b);
    var q := if (a < 0) == (b < 0) then n else -n;
    EuclidRemainder(Abs(a), Abs(b));
    assert q * b == n * Abs(b) || q * b == -(n * Abs(b));
    assert a < 0 ==> q * b == -(n * Abs(b));
    assert a >= 0 ==> q * b == n * Abs(b);
    q
  }

  /** Euclidean division of magnitudes leaves a remainder below the divisor. */
  lemma EuclidRemainder(x: nat, m: int)
    requires m > 0
    ensures 0 <= x - (x / m) * m < m
  {
    assert x == (x / m) * m + x % m;
  }

  /** A nonzero multiple of `b` is at least as large as `b` in magnitude. */
  lemma MultipleMagnitude(k: int, b: int)
    requires k != 0
    ensures Abs(k * b) >= Abs(b)
  {
    var kk: int, bb: int := Abs(k), Abs(b);
    assert kk * bb >= bb by {
      NatProductBound(kk, bb);
    }
    if k < 0 && b < 0 {
      assert k * b == kk * bb;
    } else if k < 0 {
      assert k * b == -(kk * bb);
    } else if b < 0 {
      assert k * b == -(kk * bb);
    } else {
      assert k * b == kk * bb;
    }
  }

  lemma NatProductBound(k: int, b: int)
    requires k >= 1 && b >= 0
    ensures k * b >= b
  {
    assert k * b == b + (k - 1) * b;
  }

  /** The postconditions of TruncDiv describe exactly one quotient. */
  lemma TruncDivUnique(a: int, b: int, q: int)
    requires b != 0
    requires Abs(a - q * b) < Abs(b)
    requires 0 <= a ==> 0 <= a - q * b
    requires a <= 0 ==> a - q * b <= 0
    ensures q == TruncDiv(a, b)
  {
    var p := TruncDiv(a, b);
    if q != p {
      // Both remainders lie on the same side of zero and below |b|, so
      // they differ by less than |b|; yet they differ by (p - q) * b.
      assert (a - q * b) - (a - p * b) == (p - q) * b;
      MultipleMagnitude(p - q, b);
      assert false;
    }
  }

  /** Dividing an exact multiple of `b` by `b` gives the factor back. */
  lemma TruncDivCancel(a: int, b: int)
    requires b != 0
    ensures TruncDiv(a * b, b) == a
  {
    TruncDivUnique(a * b, b, a);
  }

  /** Truncation is symmetric about zero: negating the dividend negates the
      quotient (a floor or Euclidean quotient does not). */
  lemma TruncDivNeg(a: int, b: int)
    requires b != 0
    ensures TruncDiv(-a, b) == -TruncDiv(a, b)
  {
    var q := TruncDiv(a, b);
    var r := a - q * b;
    assert (-q) * b == -(q * b);
    assert -a - (-q) * b == -r;
    assert Abs(-r) == Abs(r);
    TruncDivUnique(-a, b, -q);
  }

  /** The scalar clamp: `v` moved into `[min, max]`. When the bounds are
      ordered the result lies within them, a value already inside is
      returned unchanged, a value below is raised to `min` and a value above
      is lowered to `max`. */
  function ClampScalar(v: int, min: int, max: int): (r: int)
    ensures min <= max ==> min <= r <= max
    ensures min <= v <= max ==> r == v
    ensures v < min ==> r == min
    ensures min <= max && v > max ==> r == max
  {
    if v < min then min else if v > max then max else v
  }
}
