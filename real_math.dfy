/**
 * The floating-point primitives the pricing code relies on, over exact reals.
 *
 * `f64::exp`, `f64::ln`, `f64::sqrt` (and `Math.exp`, `Math.log`, `Math.sqrt` on the
 * client) are not defined here: a `Libm` value carries them, and every result that
 * depends on their meaning assumes `Lawful(m)`, which states the few laws of the real
 * functions that the proofs use.
 */
module RealMath {

  datatype Libm = Libm(exp: real -> real, ln: real -> real, sqrt: real -> real)

  function Exp(m: Libm, x: real): real { m.exp(x) }
  function Ln(m: Libm, x: real): real { m.ln(x) }
  function Sqrt(m: Libm, x: real): real { m.sqrt(x) }

  /** The real exponential is at most 1 at `x` when `x <= 0`. */
  ghost predicate ExpAtMostOneAt(m: Libm, x: real) {
    x <= 0.0 ==> Exp(m, x) <= 1.0
  }

  /**
   * The laws of the real exponential and square root used by the model. The bound of the
   * exponential on the negative axis is stated through `ExpAtMostOneAt`, so a proof draws
   * on it only where it asks (`ExpAtMostOne`).
   */
  ghost predicate Lawful(m: Libm) {
    && (forall x :: Exp(m, x) > 0.0)
    && (forall x :: ExpAtMostOneAt(m, x))
    && (forall x :: x >= 0.0 ==> Sqrt(m, x) >= 0.0 && Sqrt(m, x) * Sqrt(m, x) == x)
  }

  /** `std::f64::consts::PI` and `Math.PI`, as the decimal they print as. */
  const PI: real := 3.141592653589793

  /** `f64::abs` / `Math.abs`. */
  function Abs(x: real): (r: real)
    ensures r >= 0.0 && (r == x || r == -x)
  {
    if x < 0.0 then -x else x
  }

  /** `f64::max`. */
  function Max(a: real, b: real): (r: real)
    ensures r >= a && r >= b && (r == a || r == b)
  {
    if a >= b then a else b
  }

  /** `f64::min` / `usize::min` on reals. */
  function Min(a: real, b: real): (r: real)
    ensures r <= a && r <= b && (r == a || r == b)
  {
    if a <= b then a else b
  }

  lemma SqrtPositive(m: Libm, x: real)
    requires Lawful(m) && x > 0.0
    ensures Sqrt(m, x) > 0.0
  {
    assert Sqrt(m, x) * Sqrt(m, x) == x;
  }

  lemma ExpPositive(m: Libm, x: real)
    requires Lawful(m)
    ensures Exp(m, x) > 0.0
  {
  }

  lemma ExpAtMostOne(m: Libm, x: real)
    requires Lawful(m) && x <= 0.0
    ensures 0.0 < Exp(m, x) <= 1.0
  {
    assert ExpAtMostOneAt(m, x);
  }
}
