/** Real-number helpers shared by the geometry modules.

    `f64` is modelled as `real`: the model is exact where the program rounds.
    `sqrt` is the one operation with no closed form over the reals available
    here; `Sqrt` picks the non-negative root whenever one exists, so its value
    is pinned down exactly for perfect squares (`SqrtUnique`) and otherwise
    only known to be non-negative. */
module Numeric {

  /** `f64::EPSILON`, the gap between 1.0 and the next double: 2^-52. */
  const F64Epsilon: real := 1.0 / 4503599627370496.0

  /** The `const EPSILON: f64 = 1e-10` tolerance used by the containment tests. */
  const Tolerance: real := 1e-10

  /** `f64::abs`. */
  function Abs(x: real): (r: real)
    ensures r >= 0.0
    ensures r == x || r == -x
  {
    if x < 0.0 then -x else x
  }

  /** `Abs` does not see the sign of its argument. */
  lemma AbsNeg(x: real)
    ensures Abs(-x) == Abs(x)
  {
  }

  ghost predicate IsSqrt(s: real, r: real) {
    r >= 0.0 && r * r == s
  }

  /** `f64::sqrt` on the reals: the non-negative root when there is one. */
  ghost function Sqrt(s: real): (r: real)
    ensures r >= 0.0
    ensures r == 0.0 || r * r == s
  {
    if exists r :: IsSqrt(s, r) then var r :| IsSqrt(s, r); r else 0.0
  }

  /** Squaring is strictly increasing on the non-negative reals. */
  lemma SquareStrictlyIncreasing(a: real, b: real)
    requires 0.0 <= a < b
    ensures a * a < b * b
  {
    assert a * (b - a) >= 0.0;
    assert b * (b - a) > 0.0;
  }

  /** Two non-negative reals with the same square are equal. */
  lemma SquareInjective(a: real, b: real)
    requires a >= 0.0 && b >= 0.0 && a * a == b * b
    ensures a == b
  {
    if a < b {
      SquareStrictlyIncreasing(a, b);
    } else if b < a {
      SquareStrictlyIncreasing(b, a);
    }
  }

  /** Any non-negative root of `s` is `Sqrt(s)`. */
  lemma SqrtUnique(s: real, a: real)
    requires IsSqrt(s, a)
    ensures Sqrt(s) == a
  {
    var r := Sqrt(s);
    assert IsSqrt(s, r);
    SquareInjective(r, a);
  }

  /** A root of `k*k*s` divided by `k` is a root of `s`. */
  lemma RootOfScaled(s: real, k: real, r: real)
    requires k > 0.0 && IsSqrt(k * k * s, r)
    ensures IsSqrt(s, r / k)
  {
    var q := r / k;
    assert q * k == r;
    var m, d := k * k, q * q - s;
    assert m * (q * q) == r * r;
    SquareStrictlyIncreasing(0.0, k);
    assert m > 0.0 && m * d == 0.0;
  }

  /** Scaling the radicand by `k*k` scales the root by `k`, whether or not
      the root is known to exist. */
  lemma SqrtScale(s: real, k: real)
    requires k > 0.0
    ensures Sqrt(k * k * s) == k * Sqrt(s)
  {
    var t := k * k * s;
    if exists r :: IsSqrt(s, r) {
      var r := Sqrt(s);
      assert IsSqrt(s, r);
      assert (k * r) * (k * r) == t;
      SqrtUnique(t, k * r);
    } else if exists r :: IsSqrt(t, r) {
      var r :| IsSqrt(t, r);
      RootOfScaled(s, k, r);
      assert false;
    }
  }

  /** The root of zero is zero. */
  lemma SqrtZero()
    ensures Sqrt(0.0) == 0.0
  {
    SqrtUnique(0.0, 0.0);
  }
}
