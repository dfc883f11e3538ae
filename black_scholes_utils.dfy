/**
 * The browser's copy of the Black-Scholes kernel: the normal CDF approximation, the
 * normal density and d1/d2, written as the client writes them, and shown to agree with
 * the server's kernel in `BlackScholes`.
 */
module BlackScholesUtils {
  import opened RealMath
  import BlackScholes

  /** `normalCDF`: the same Zelen-Severo approximation, with `p` reflected for positive `x`. */
  function NormalCDF(m: Libm, x: real): real {
    var p := ClientTail(m, x);
    if x > 0.0 then 1.0 - p else p
  }

  /** `normalPDF`. */
  function NormalPDF(m: Libm, x: real): real
    requires Lawful(m)
  {
    SqrtPositive(m, 2.0 * PI);
    Exp(m, -0.5 * x * x) / Sqrt(m, 2.0 * PI)
  }

  /** `calculateD1`; the real model needs a non-zero strike and denominator. */
  function CalculateD1(m: Libm, s: real, k: real, r: real, v: real, t: real): real
    requires k != 0.0 && v * Sqrt(m, t) != 0.0
  {
    (Ln(m, s / k) + (r + 0.5 * v * v) * t) / (v * Sqrt(m, t))
  }

  /** `calculateD2`. */
  function CalculateD2(m: Libm, d1: real, v: real, t: real): real {
    d1 - v * Sqrt(m, t)
  }

  /** The client CDF is the server CDF: same constants, same branch. */
  lemma NormalCDFAgrees(m: Libm, x: real)
    ensures NormalCDF(m, x) == BlackScholes.NormalCdf(m, x)
  {
    ClientTailAgrees(m, x);
  }

  /** The client's inline polynomial is the server's coefficient list evaluated at `t`. */
  lemma ClientTailAgrees(m: Libm, x: real)
    ensures ClientTail(m, x) == BlackScholes.NormalTail(m, x)
  {
    var t := 1.0 / (1.0 + 0.2316419 * Abs(x));
    BlackScholes.HornerTail(t);
    assert (-x * x) / 2.0 == -x * x / 2.0;
  }

  /** The lower tail `p` as the client writes it: the polynomial inline, the exponent as `(-x * x) / 2`. */
  function ClientTail(m: Libm, x: real): real {
    var t := 1.0 / (1.0 + 0.2316419 * Abs(x));
    var d := 0.3989423 * Exp(m, (-x * x) / 2.0);
    d * t * (0.3193815 + t * (-0.3565638 + t * (1.781478 + t * (-1.821256 + t * 1.330274))))
  }

  /** Reflection away from 0, and strict bounds (0, 1) with the value above 1/2 exactly for positive `x`. */
  lemma NormalCDFSymmetricBounded(m: Libm, x: real)
    requires Lawful(m)
    ensures x != 0.0 ==> NormalCDF(m, -x) == 1.0 - NormalCDF(m, x)
    ensures 0.0 < NormalCDF(m, x) < 1.0
    ensures NormalCDF(m, x) > 0.5 <==> x > 0.0
  {
    NormalCDFAgrees(m, x);
    NormalCDFAgrees(m, -x);
    BlackScholes.NormalCdfBounds(m, x);
    if x != 0.0 {
      BlackScholes.NormalCdfSymmetric(m, x);
    }
  }

  /** The client density is the server density; it is even and strictly positive. */
  lemma NormalPDFAgrees(m: Libm, x: real)
    requires Lawful(m)
    ensures NormalPDF(m, x) == BlackScholes.NormalPdf(m, x)
    ensures NormalPDF(m, x) > 0.0 && NormalPDF(m, -x) == NormalPDF(m, x)
  {
    BlackScholes.NormalPdfEvenPositive(m, x);
  }

  /** The client d1 and d2 are the server's, and d1 - d2 is `v * sqrt(t)`, positive for positive `v` and `t`. */
  lemma D1D2Agree(m: Libm, s: real, k: real, r: real, v: real, t: real)
    requires Lawful(m) && k != 0.0 && v > 0.0 && t > 0.0
    ensures v * Sqrt(m, t) > 0.0
    ensures CalculateD1(m, s, k, r, v, t) == BlackScholes.CalculateD1(m, s, k, r, v, t)
    ensures CalculateD2(m, CalculateD1(m, s, k, r, v, t), v, t) == BlackScholes.CalculateD2(m, CalculateD1(m, s, k, r, v, t), v, t)
    ensures CalculateD1(m, s, k, r, v, t) - CalculateD2(m, CalculateD1(m, s, k, r, v, t), v, t) == v * Sqrt(m, t) > 0.0
  {
    BlackScholes.DenominatorPositive(m, v, t);
  }
}
