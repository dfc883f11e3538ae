/**
 * The analytic Black-Scholes engine of the server: the normal-distribution kernel,
 * d1/d2, call and put prices with their degenerate branches, the five Greeks, and the
 * 10 x 10 spot x volatility heatmap.
 *
 * Prices are exact reals; `exp`, `ln` and `sqrt` come from a `Libm` value, and results
 * that need their laws assume `Lawful(m)`.
 */
module BlackScholes {
  import opened RealMath

  datatype OptionType = Call | Put

  datatype Greeks = Greeks(delta: real, gamma: real, theta: real, vega: real, rho: real)

  datatype BlackScholesResult = BlackScholesResult(callPrice: real, putPrice: real)

  /** Axis labels and price cells, each passed through the "{:.2}" formatter. */
  datatype HeatmapData = HeatmapData(
    spotPrices: seq<string>,
    volatilities: seq<string>,
    callData: seq<seq<string>>,
    putData: seq<seq<string>>)

  // ---------------------------------------------------------------------------
  // Normal distribution kernel
  // ---------------------------------------------------------------------------

  /** Standard normal density `exp(-x^2/2) / sqrt(2 pi)`. */
  function NormalPdf(m: Libm, x: real): real
    requires Lawful(m)
  {
    SqrtPositive(m, 2.0 * PI);
    Exp(m, -0.5 * x * x) / Sqrt(m, 2.0 * PI)
  }

  /** The coefficients b1 .. b5 of the Zelen-Severo tail polynomial. */
  const TAIL_COEFFICIENTS: seq<real> := [0.3193815, -0.3565638, 1.781478, -1.821256, 1.330274]

  /** `cs[0] + t * (cs[1] + t * (...))`: the nested evaluation the code writes out. */
  function Horner(cs: seq<real>, t: real): real
    decreases |cs|
  {
    if cs == [] then 0.0 else cs[0] + t * Horner(cs[1..], t)
  }

  /** The rational factor of the Zelen-Severo approximation, as a function of `t`. */
  function TailPolynomial(t: real): real {
    t * (0.3193815 + t * (-0.3565638 + t * (1.781478 + t * (-1.821256 + t * 1.330274))))
  }

  /** The approximated lower tail `p`; it depends on `x` only through `|x|` and `x * x`. */
  function NormalTail(m: Libm, x: real): real {
    var t := 1.0 / (1.0 + 0.2316419 * Abs(x));
    var d := 0.3989423 * Exp(m, -x * x / 2.0);
    d * t * Horner(TAIL_COEFFICIENTS, t)
  }

  /** The coefficient list evaluated at `t` is the nested polynomial written out. */
  lemma {:induction false} HornerTail(t: real)
    ensures Horner(TAIL_COEFFICIENTS, t)
         == 0.3193815 + t * (-0.3565638 + t * (1.781478 + t * (-1.821256 + t * 1.330274)))
  {
    var c5: seq<real> := [1.330274];
    var c4: seq<real> := [-1.821256, 1.330274];
    var c3: seq<real> := [1.781478, -1.821256, 1.330274];
    var c2: seq<real> := [-0.3565638, 1.781478, -1.821256, 1.330274];
    assert c5[1..] == [];
    assert Horner(c5, t) == 1.330274;
    assert c4[1..] == c5;
    assert Horner(c4, t) == -1.821256 + t * 1.330274;
    assert c3[1..] == c4;
    assert Horner(c3, t) == 1.781478 + t * (-1.821256 + t * 1.330274);
    assert c2[1..] == c3;
    assert Horner(c2, t) == -0.3565638 + t * (1.781478 + t * (-1.821256 + t * 1.330274));
    assert TAIL_COEFFICIENTS[1..] == c2;
  }

  /** `p` is `d` times the tail polynomial of `t`. */
  lemma TailFactors(d: real, t: real)
    ensures d * t * Horner(TAIL_COEFFICIENTS, t) == d * TailPolynomial(t)
  {
    HornerTail(t);
    var q := Horner(TAIL_COEFFICIENTS, t);
    assert TailPolynomial(t) == t * q;
    assert d * t * q == d * (t * q);
  }

  /** Zelen-Severo approximation of the standard normal CDF. */
  function NormalCdf(m: Libm, x: real): real {
    var p := NormalTail(m, x);
    if x > 0.0 then 1.0 - p else p
  }

  /** `p` depends on `x` only through `|x|` and `x * x`. */
  lemma NormalTailEven(m: Libm, x: real)
    ensures NormalTail(m, -x) == NormalTail(m, x)
  {
    var y := -x;
    assert Abs(y) == Abs(x);
    assert -y * y / 2.0 == -x * x / 2.0;
  }

  /** The approximation is an exact reflection away from 0. */
  lemma NormalCdfSymmetric(m: Libm, x: real)
    requires x != 0.0
    ensures NormalCdf(m, -x) == 1.0 - NormalCdf(m, x)
  {
    NormalTailEven(m, x);
  }

  lemma NormalPdfEvenPositive(m: Libm, x: real)
    requires Lawful(m)
    ensures NormalPdf(m, x) > 0.0
    ensures NormalPdf(m, -x) == NormalPdf(m, x)
  {
    assert -0.5 * -x * -x == -0.5 * x * x;
    ExpPositive(m, -0.5 * x * x);
    SqrtPositive(m, 2.0 * PI);
  }

  lemma SquareNonNegative(u: real)
    ensures u * u >= 0.0
  {
    if u < 0.0 { assert u * u == (-u) * (-u); }
  }

  lemma MulMonotone(a: real, b: real, c: real)
    requires a >= 0.0 && b >= c
    ensures a * b >= a * c
  {
    assert a * b - a * c == a * (b - c);
  }

  // Horner stages of TailPolynomial: TailPolynomial(t) == t * H1(t)
  function H4(t: real): real { -1.821256 + t * 1.330274 }
  function H3(t: real): real { 1.781478 + t * H4(t) }
  function H2(t: real): real { -0.3565638 + t * H3(t) }
  function H1(t: real): real { 0.3193815 + t * H2(t) }

  lemma H3LowerBound(t: real)
    requires 0.0 <= t <= 1.0
    ensures H3(t) >= 1.15
  {
    var u := t - 0.68;
    SquareNonNegative(u);
    assert t * t == u * u + 1.36 * t - 0.4624;
    assert t * H4(t) == -1.821256 * t + 1.330274 * (t * t);
  }

  /** One Horner stage: f(1) - f(t) = (1 - t) (D + g(t)) when f(t) = a + t g(t) and g(1) - g(t) = (1 - t) D. */
  lemma HornerStep(t: real, f1: real, ft: real, g1: real, gt: real, a: real, d: real)
    requires ft == a + t * gt && f1 == a + g1
    requires g1 - gt == (1.0 - t) * d
    ensures f1 - ft == (1.0 - t) * (d + gt)
  {
    assert (1.0 - t) * (d + gt) == (1.0 - t) * d + (1.0 - t) * gt;
    assert (1.0 - t) * gt == gt - t * gt;
  }

  /** For `t` in (0, 1], as `t = 1 / (1 + 0.2316419 |x|)` always is, the tail polynomial is positive. */
  lemma TailPolynomialPositive(t: real)
    requires 0.0 < t <= 1.0
    ensures TailPolynomial(t) > 0.0
  {
    H3LowerBound(t);
    if t <= 0.8 {
      MulMonotone(t, H3(t), 0.0);
      MulMonotone(t, H2(t), -0.3565638);
      assert t * -0.3565638 >= 0.8 * -0.3565638;
    } else {
      MulMonotone(t, H3(t), 1.15);
      assert t * 1.15 >= 0.8 * 1.15;
      MulMonotone(t, H2(t), 0.0);
    }
    assert H1(t) > 0.0;
    MulMonotone(t, H1(t), 0.0);
    assert TailPolynomial(t) == t * H1(t);
    assert t * H1(t) != 0.0;
  }

  lemma Stage3Difference(t: real)
    ensures H3(1.0) - H3(t) == (1.0 - t) * (1.330274 + H4(t))
  {
    assert H4(1.0) - H4(t) == (1.0 - t) * 1.330274;
    HornerStep(t, H3(1.0), H3(t), H4(1.0), H4(t), 1.781478, 1.330274);
  }

  lemma Stage2Difference(t: real)
    ensures H2(1.0) - H2(t) == (1.0 - t) * (1.330274 + H4(t) + H3(t))
  {
    Stage3Difference(t);
    HornerStep(t, H2(1.0), H2(t), H3(1.0), H3(t), -0.3565638, 1.330274 + H4(t));
  }

  lemma Stage1Difference(t: real)
    ensures H1(1.0) - H1(t) == (1.0 - t) * (1.330274 + H4(t) + H3(t) + H2(t))
  {
    Stage2Difference(t);
    HornerStep(t, H1(1.0), H1(t), H2(1.0), H2(t), 0.3193815, 1.330274 + H4(t) + H3(t));
  }

  lemma TailPolynomialHorner(t: real)
    ensures TailPolynomial(t) == t * H1(t)
  {
    assert H2(t) == -0.3565638 + t * (1.781478 + t * (-1.821256 + t * 1.330274));
  }

  lemma TailPolynomialDifference(t: real)
    ensures TailPolynomial(1.0) - TailPolynomial(t)
         == (1.0 - t) * (1.330274 + H4(t) + H3(t) + H2(t) + H1(t))
  {
    Stage1Difference(t);
    TailPolynomialHorner(t);
    TailPolynomialHorner(1.0);
    HornerStep(t, TailPolynomial(1.0), TailPolynomial(t), H1(1.0), H1(t), 0.0, 1.330274 + H4(t) + H3(t) + H2(t));
  }

  lemma StageSumPositive(t: real)
    requires 0.0 < t <= 1.0
    ensures 1.330274 + H4(t) + H3(t) + H2(t) + H1(t) > 0.0
  {
    H3LowerBound(t);
    MulMonotone(t, 1.330274, 0.0);
    MulMonotone(t, H3(t), 0.0);
    if H2(t) < 0.0 {
      MulMonotone(1.0 - t, -H2(t), 0.0);
      assert t * H2(t) >= H2(t);
    } else {
      MulMonotone(t, H2(t), 0.0);
    }
  }

  /** ... and at most its value at `t = 1`, below `1 / (2 * 0.3989423)`, so `p` stays below 1/2. */
  lemma TailPolynomialBounded(t: real)
    requires 0.0 < t <= 1.0
    ensures TailPolynomial(t) <= 1.2533137
  {
    TailPolynomialDifference(t);
    StageSumPositive(t);
    MulMonotone(1.0 - t, 1.330274 + H4(t) + H3(t) + H2(t) + H1(t), 0.0);
    assert TailPolynomial(1.0) == 1.2533137;
  }

  /** 0 < p < 1/2: the approximation never reaches 1/2. */
  lemma NormalTailBounds(m: Libm, x: real)
    requires Lawful(m)
    ensures 0.0 < NormalTail(m, x) < 0.5
  {
    var t := 1.0 / (1.0 + 0.2316419 * Abs(x));
    var e := Exp(m, -x * x / 2.0);
    assert -x * x / 2.0 <= 0.0;
    ExpAtMostOne(m, -x * x / 2.0);
    TailPolynomialPositive(t);
    TailPolynomialBounded(t);
    var q := TailPolynomial(t);
    TailFactors(0.3989423 * e, t);
    assert NormalTail(m, x) == 0.3989423 * e * q;
    assert e * q <= q;
    assert 0.3989423 * 1.2533137 < 0.5;
  }

  /** The CDF lies strictly inside (0, 1) and is above 1/2 exactly for positive x. */
  lemma NormalCdfBounds(m: Libm, x: real)
    requires Lawful(m)
    ensures 0.0 < NormalCdf(m, x) < 1.0
    ensures NormalCdf(m, x) > 0.5 <==> x > 0.0
    ensures NormalCdf(m, x) != 0.5
  {
    NormalTailBounds(m, x);
  }

  // ---------------------------------------------------------------------------
  // d1, d2 and prices
  // ---------------------------------------------------------------------------

  /** `ln(s/k)` and the division by `v * sqrt(t)` are only defined over the reals for a non-zero strike and denominator. */
  function CalculateD1(m: Libm, s: real, k: real, r: real, v: real, t: real): real
    requires k != 0.0 && v * Sqrt(m, t) != 0.0
  {
    (Ln(m, s / k) + (r + 0.5 * v * v) * t) / (v * Sqrt(m, t))
  }

  function CalculateD2(m: Libm, d1: real, v: real, t: real): real {
    d1 - v * Sqrt(m, t)
  }

  lemma PositiveProduct(a: real, b: real)
    requires a > 0.0 && b > 0.0
    ensures a * b > 0.0
  {
  }

  /** On the main branch (t > 0, v > 0) the d1 denominator is positive. */
  lemma DenominatorPositive(m: Libm, v: real, t: real)
    requires Lawful(m) && v > 0.0 && t > 0.0
    ensures Sqrt(m, t) > 0.0 && v * Sqrt(m, t) > 0.0
  {
    SqrtPositive(m, t);
    PositiveProduct(v, Sqrt(m, t));
  }

  /** d2 sits exactly `v * sqrt(t)` below d1, so strictly below it on the main branch. */
  lemma D2BelowD1(m: Libm, s: real, k: real, r: real, v: real, t: real)
    requires Lawful(m) && k != 0.0 && v > 0.0 && t > 0.0
    ensures v * Sqrt(m, t) > 0.0
    ensures CalculateD1(m, s, k, r, v, t) - CalculateD2(m, CalculateD1(m, s, k, r, v, t), v, t) == v * Sqrt(m, t)
    ensures CalculateD2(m, CalculateD1(m, s, k, r, v, t), v, t) < CalculateD1(m, s, k, r, v, t)
  {
    DenominatorPositive(m, v, t);
  }

  /** What the real model needs to evaluate the main branch: a non-zero strike there. */
  predicate PricingDefined(k: real, v: real, t: real) {
    t > 0.0 && v > 0.0 ==> k != 0.0
  }

  function CalculateCallPrice(m: Libm, s: real, k: real, r: real, v: real, t: real): real
    requires Lawful(m) && PricingDefined(k, v, t)
  {
    if t <= 0.0 then Max(s - k, 0.0)
    else if v <= 0.0 then Max(s - k * Exp(m, -r * t), 0.0)
    else
      DenominatorPositive(m, v, t);
      var d1 := CalculateD1(m, s, k, r, v, t);
      var d2 := CalculateD2(m, d1, v, t);
      NormalCdf(m, d1) * s - NormalCdf(m, d2) * k * Exp(m, -r * t)
  }

  function CalculatePutPrice(m: Libm, s: real, k: real, r: real, v: real, t: real): real
    requires Lawful(m) && PricingDefined(k, v, t)
  {
    if t <= 0.0 then Max(k - s, 0.0)
    else if v <= 0.0 then Max(k * Exp(m, -r * t) - s, 0.0)
    else
      DenominatorPositive(m, v, t);
      var d1 := CalculateD1(m, s, k, r, v, t);
      var d2 := CalculateD2(m, d1, v, t);
      k * Exp(m, -r * t) * NormalCdf(m, -d2) - s * NormalCdf(m, -d1)
  }

  /** Both prices of the same inputs; on the degenerate branches they satisfy put-call parity outright. */
  function CalculateOptionsPrices(m: Libm, s: real, k: real, r: real, v: real, t: real): (res: BlackScholesResult)
    requires Lawful(m) && PricingDefined(k, v, t)
    ensures res.callPrice == CalculateCallPrice(m, s, k, r, v, t)
    ensures res.putPrice == CalculatePutPrice(m, s, k, r, v, t)
    ensures t <= 0.0 ==> res.callPrice - res.putPrice == s - k
    ensures t > 0.0 && v <= 0.0 ==> res.callPrice - res.putPrice == s - k * Exp(m, -r * t)
  {
    BlackScholesResult(CalculateCallPrice(m, s, k, r, v, t), CalculatePutPrice(m, s, k, r, v, t))
  }

  /** At or past expiry both prices are intrinsic values. */
  lemma ExpiredPrices(m: Libm, s: real, k: real, r: real, v: real, t: real)
    requires Lawful(m) && t <= 0.0
    ensures CalculateCallPrice(m, s, k, r, v, t) == Max(s - k, 0.0) >= 0.0
    ensures CalculatePutPrice(m, s, k, r, v, t) == Max(k - s, 0.0) >= 0.0
    ensures CalculateCallPrice(m, s, k, r, v, t) - CalculatePutPrice(m, s, k, r, v, t) == s - k
  {
  }

  /** With no volatility before expiry both prices are discounted intrinsic values. */
  lemma ZeroVolatilityPrices(m: Libm, s: real, k: real, r: real, v: real, t: real)
    requires Lawful(m) && t > 0.0 && v <= 0.0
    ensures CalculateCallPrice(m, s, k, r, v, t) == Max(s - k * Exp(m, -r * t), 0.0) >= 0.0
    ensures CalculatePutPrice(m, s, k, r, v, t) == Max(k * Exp(m, -r * t) - s, 0.0) >= 0.0
    ensures CalculateCallPrice(m, s, k, r, v, t) - CalculatePutPrice(m, s, k, r, v, t) == s - k * Exp(m, -r * t)
  {
    var strike := k * Exp(m, -r * t);
    assert CalculateCallPrice(m, s, k, r, v, t) == Max(s - strike, 0.0);
    assert CalculatePutPrice(m, s, k, r, v, t) == Max(strike - s, 0.0);
  }

  /**
   * Put-call parity holds exactly on the main branch whenever neither d1 nor d2 is 0
   * (at 0 the approximation gives cdf(0) + cdf(-0) = 2 p(0), slightly below 1).
   */
  lemma PutCallParity(m: Libm, s: real, k: real, r: real, v: real, t: real)
    requires Lawful(m) && k != 0.0 && v > 0.0 && t > 0.0
    requires CalculateD1(m, s, k, r, v, t) != 0.0
    requires CalculateD2(m, CalculateD1(m, s, k, r, v, t), v, t) != 0.0
    ensures CalculateCallPrice(m, s, k, r, v, t) - CalculatePutPrice(m, s, k, r, v, t) == s - k * Exp(m, -r * t)
  {
    var d1 := CalculateD1(m, s, k, r, v, t);
    var d2 := CalculateD2(m, d1, v, t);
    var e := Exp(m, -r * t);
    CallMainBranch(m, s, k, r, v, t);
    PutMainBranch(m, s, k, r, v, t);
    NormalCdfSymmetric(m, d1);
    NormalCdfSymmetric(m, d2);
    ParityAlgebra(s, k, e, NormalCdf(m, d1), NormalCdf(m, -d1), NormalCdf(m, d2), NormalCdf(m, -d2));
  }

  /** With time and volatility left, the call is `N(d1) s - N(d2) k exp(-r t)`. */
  lemma CallMainBranch(m: Libm, s: real, k: real, r: real, v: real, t: real)
    requires Lawful(m) && k != 0.0 && v > 0.0 && t > 0.0
    ensures var d1 := CalculateD1(m, s, k, r, v, t);
            CalculateCallPrice(m, s, k, r, v, t)
            == NormalCdf(m, d1) * s - NormalCdf(m, CalculateD2(m, d1, v, t)) * k * Exp(m, -r * t)
  {
    DenominatorPositive(m, v, t);
  }

  /** With time and volatility left, the put is `k exp(-r t) N(-d2) - s N(-d1)`. */
  lemma PutMainBranch(m: Libm, s: real, k: real, r: real, v: real, t: real)
    requires Lawful(m) && k != 0.0 && v > 0.0 && t > 0.0
    ensures var d1 := CalculateD1(m, s, k, r, v, t);
            CalculatePutPrice(m, s, k, r, v, t)
            == k * Exp(m, -r * t) * NormalCdf(m, -CalculateD2(m, d1, v, t)) - s * NormalCdf(m, -d1)
  {
    DenominatorPositive(m, v, t);
  }

  /** The rearrangement behind put-call parity, over opaque reals. */
  lemma ParityAlgebra(s: real, k: real, e: real, a: real, b: real, c: real, d: real)
    requires a + b == 1.0 && c + d == 1.0
    ensures a * s - c * k * e - (k * e * d - s * b) == s - k * e
  {
    assert a * s + s * b == s * (a + b);
    assert c * k * e + k * e * d == k * e * (c + d);
  }

  // ---------------------------------------------------------------------------
  // Greeks
  // ---------------------------------------------------------------------------

  /** What the real model needs on the main branch: non-zero spot (gamma) and strike (d1). */
  predicate GreeksDefined(s: real, k: real, v: real, t: real) {
    t > 0.0 && v > 0.0 ==> s != 0.0 && k != 0.0
  }

  function CalculateGreeks(m: Libm, s: real, k: real, r: real, v: real, t: real, optionType: OptionType): Greeks
    requires Lawful(m) && GreeksDefined(s, k, v, t)
  {
    if t <= 0.0 || v <= 0.0 then Greeks(0.0, 0.0, 0.0, 0.0, 0.0)
    else
      DenominatorPositive(m, v, t);
      var d1 := CalculateD1(m, s, k, r, v, t);
      var d2 := CalculateD2(m, d1, v, t);
      var pdf := NormalPdf(m, d1);
      var delta := match optionType
        case Call => 1.0 - NormalCdf(m, -d1)
        case Put => NormalCdf(m, -d1) - 1.0;
      assert s * v * Sqrt(m, t) != 0.0 by {
        assert s * v * Sqrt(m, t) == s * (v * Sqrt(m, t));
      }
      var gamma := pdf / (s * v * Sqrt(m, t));
      var theta := match optionType
        case Call => (-s * pdf * v / (2.0 * Sqrt(m, t)) - r * k * Exp(m, -r * t) * (1.0 - NormalCdf(m, -d2))) / 365.0
        case Put => (-s * pdf * v / (2.0 * Sqrt(m, t)) + r * k * Exp(m, -r * t) * NormalCdf(m, -d2)) / 365.0;
      var vega := s * Sqrt(m, t) * pdf / 100.0;
      var rho := match optionType
        case Call => k * t * Exp(m, -r * t) * (1.0 - NormalCdf(m, -d2)) / 100.0
        case Put => -k * t * Exp(m, -r * t) * NormalCdf(m, -d2) / 100.0;
      Greeks(delta, gamma, theta, vega, rho)
  }

  /** At or past expiry, or with no volatility, every Greek is 0 for both option types. */
  lemma DegenerateGreeks(m: Libm, s: real, k: real, r: real, v: real, t: real, optionType: OptionType)
    requires Lawful(m) && (t <= 0.0 || v <= 0.0)
    ensures CalculateGreeks(m, s, k, r, v, t, optionType) == Greeks(0.0, 0.0, 0.0, 0.0, 0.0)
  {
  }

  /**
   * Call and put Greeks on the main branch: gamma and vega coincide, the put delta is the
   * negated call delta (as the code computes it), and rho and theta differ by the
   * discounted-strike terms.
   */
  lemma CallPutGreeks(m: Libm, s: real, k: real, r: real, v: real, t: real)
    requires Lawful(m) && s != 0.0 && k != 0.0 && v > 0.0 && t > 0.0
    ensures var c := CalculateGreeks(m, s, k, r, v, t, Call);
            var p := CalculateGreeks(m, s, k, r, v, t, Put);
            && c.gamma == p.gamma
            && c.vega == p.vega
            && p.delta == -c.delta
            && c.rho - p.rho == k * t * Exp(m, -r * t) / 100.0
            && c.theta - p.theta == -r * k * Exp(m, -r * t) / 365.0
  {
    GreeksShared(m, s, k, r, v, t);
    var d1 := CalculateD1(m, s, k, r, v, t);
    var e := Exp(m, -r * t);
    var n := NormalCdf(m, -CalculateD2(m, d1, v, t));
    var a := -s * NormalPdf(m, d1) * v / (2.0 * Sqrt(m, t));
    CallRho(m, s, k, r, v, t);
    PutRho(m, s, k, r, v, t);
    CallTheta(m, s, k, r, v, t);
    PutTheta(m, s, k, r, v, t);
    RhoThetaAlgebra(k, t, r, e, n, a);
  }

  /** Gamma and vega do not depend on the option type; the coded put delta negates the call delta. */
  lemma GreeksShared(m: Libm, s: real, k: real, r: real, v: real, t: real)
    requires Lawful(m) && s != 0.0 && k != 0.0 && v > 0.0 && t > 0.0
    ensures var c := CalculateGreeks(m, s, k, r, v, t, Call);
            var p := CalculateGreeks(m, s, k, r, v, t, Put);
            c.gamma == p.gamma && c.vega == p.vega && p.delta == -c.delta
  {
  }

  /** Call rho, spelled out with the discount factor and the probability term. */
  lemma CallRho(m: Libm, s: real, k: real, r: real, v: real, t: real)
    requires Lawful(m) && s != 0.0 && k != 0.0 && v > 0.0 && t > 0.0
    ensures var n := NormalCdf(m, -CalculateD2(m, CalculateD1(m, s, k, r, v, t), v, t));
            CalculateGreeks(m, s, k, r, v, t, Call).rho == k * t * Exp(m, -r * t) * (1.0 - n) / 100.0
  {
  }

  /** Put rho, spelled out with the discount factor and the probability term. */
  lemma PutRho(m: Libm, s: real, k: real, r: real, v: real, t: real)
    requires Lawful(m) && s != 0.0 && k != 0.0 && v > 0.0 && t > 0.0
    ensures var n := NormalCdf(m, -CalculateD2(m, CalculateD1(m, s, k, r, v, t), v, t));
            CalculateGreeks(m, s, k, r, v, t, Put).rho == -k * t * Exp(m, -r * t) * n / 100.0
  {
  }

  /** Call theta, spelled out around the time-decay term shared with the put. */
  lemma CallTheta(m: Libm, s: real, k: real, r: real, v: real, t: real)
    requires Lawful(m) && s != 0.0 && k != 0.0 && v > 0.0 && t > 0.0
    ensures var d1 := CalculateD1(m, s, k, r, v, t);
            var n := NormalCdf(m, -CalculateD2(m, d1, v, t));
            var a := -s * NormalPdf(m, d1) * v / (2.0 * Sqrt(m, t));
            CalculateGreeks(m, s, k, r, v, t, Call).theta == (a - r * k * Exp(m, -r * t) * (1.0 - n)) / 365.0
  {
  }

  /** Put theta, spelled out around the time-decay term shared with the call. */
  lemma PutTheta(m: Libm, s: real, k: real, r: real, v: real, t: real)
    requires Lawful(m) && s != 0.0 && k != 0.0 && v > 0.0 && t > 0.0
    ensures var d1 := CalculateD1(m, s, k, r, v, t);
            var n := NormalCdf(m, -CalculateD2(m, d1, v, t));
            var a := -s * NormalPdf(m, d1) * v / (2.0 * Sqrt(m, t));
            CalculateGreeks(m, s, k, r, v, t, Put).theta == (a + r * k * Exp(m, -r * t) * n) / 365.0
  {
  }

  /** The rearrangements behind the rho and theta gaps, over opaque reals. */
  lemma RhoThetaAlgebra(k: real, t: real, r: real, e: real, n: real, a: real)
    ensures k * t * e * (1.0 - n) / 100.0 - -k * t * e * n / 100.0 == k * t * e / 100.0
    ensures (a - r * k * e * (1.0 - n)) / 365.0 - (a + r * k * e * n) / 365.0 == -r * k * e / 365.0
  {
    assert k * t * e * (1.0 - n) == k * t * e - k * t * e * n;
    assert -k * t * e * n == -(k * t * e * n);
    assert r * k * e * (1.0 - n) == r * k * e - r * k * e * n;
    assert -r * k * e == -(r * k * e);
  }

  /** Signs on the main branch with a positive spot: gamma and vega positive, deltas strictly inside their ranges. */
  lemma GreeksSigns(m: Libm, s: real, k: real, r: real, v: real, t: real)
    requires Lawful(m) && s > 0.0 && k != 0.0 && v > 0.0 && t > 0.0
    ensures var c := CalculateGreeks(m, s, k, r, v, t, Call);
            var p := CalculateGreeks(m, s, k, r, v, t, Put);
            && c.gamma > 0.0 && c.vega > 0.0
            && 0.0 < c.delta < 1.0 && -1.0 < p.delta < 0.0
  {
    var d1 := CalculateD1(m, s, k, r, v, t);
    DenominatorPositive(m, v, t);
    NormalPdfEvenPositive(m, d1);
    NormalCdfBounds(m, -d1);
    var pdf := NormalPdf(m, d1);
    var sq := Sqrt(m, t);
    PositiveProduct(s, v * sq);
    assert s * v * sq == s * (v * sq);
    PositiveProduct(s * sq, pdf) by { PositiveProduct(s, sq); }
  }

  /**
   * As written, the put delta `cdf(-d1) - 1` is the negated call delta, so the gap
   * `call delta - put delta` is `2 * call delta`, which is never 1 (the approximated CDF
   * never equals 1/2).
   */
  lemma PutDeltaGap(m: Libm, s: real, k: real, r: real, v: real, t: real)
    requires Lawful(m) && s != 0.0 && k != 0.0 && v > 0.0 && t > 0.0
    ensures var c := CalculateGreeks(m, s, k, r, v, t, Call);
            var p := CalculateGreeks(m, s, k, r, v, t, Put);
            c.delta - p.delta == 2.0 * c.delta && c.delta - p.delta != 1.0
  {
    var d1 := CalculateD1(m, s, k, r, v, t);
    NormalCdfBounds(m, -d1);
  }

  /** The textbook delta: `1 - cdf(-d1)` for a call, `-cdf(-d1)` (that is N(d1) - 1) for a put. */
  function IntendedDelta(m: Libm, d1: real, optionType: OptionType): (delta: real)
    requires Lawful(m)
    ensures optionType == Put ==> -1.0 < delta < 0.0
    ensures optionType == Call ==> 0.0 < delta < 1.0
  {
    NormalCdfBounds(m, -d1);
    match optionType
    case Call => 1.0 - NormalCdf(m, -d1)
    case Put => -NormalCdf(m, -d1)
  }

  /** With the intended put delta, call delta - put delta is exactly 1, and the call delta is the one the code computes. */
  lemma IntendedDeltaParity(m: Libm, s: real, k: real, r: real, v: real, t: real)
    requires Lawful(m) && s != 0.0 && k != 0.0 && v > 0.0 && t > 0.0
    ensures var d1 := CalculateD1(m, s, k, r, v, t);
            && IntendedDelta(m, d1, Call) == CalculateGreeks(m, s, k, r, v, t, Call).delta
            && IntendedDelta(m, d1, Call) - IntendedDelta(m, d1, Put) == 1.0
  {
  }

  // ---------------------------------------------------------------------------
  // Heatmap
  // ---------------------------------------------------------------------------

  const SPOT_STEPS: int := 10
  const VOL_STEPS: int := 10
  const SPOT_RANGE: real := 0.4
  const VOL_RANGE: real := 0.8
  /** The floor of the volatility axis. */
  const MIN_VOL: real := 0.05

  function MinSpot(baseS: real): real { baseS * (1.0 - SPOT_RANGE) }
  function MaxSpot(baseS: real): real { baseS * (1.0 + SPOT_RANGE) }
  function SpotStep(baseS: real): real { (MaxSpot(baseS) - MinSpot(baseS)) / (SPOT_STEPS as real - 1.0) }

  /** Row `i` of the heatmap is priced at this spot. */
  function SpotLevel(baseS: real, i: int): real { MinSpot(baseS) + i as real * SpotStep(baseS) }

  function MinVol(baseV: real): real { Max(baseV * (1.0 - VOL_RANGE), MIN_VOL) }
  function MaxVol(baseV: real): real { baseV * (1.0 + VOL_RANGE) }
  function VolStep(baseV: real): real { (MaxVol(baseV) - MinVol(baseV)) / (VOL_STEPS as real - 1.0) }

  /** Column `j` of the heatmap is priced at this volatility. */
  function VolLevel(baseV: real, j: int): real { MinVol(baseV) + j as real * VolStep(baseV) }

  /**
   * The 10 x 10 grid of call and put prices around the base spot and volatility: row `i`
   * is priced at spot level `i` across the volatility axis (`CallRowCells` and `PutRowCells` give each cell).
   * The precondition is what the real model needs: the first volatility is at least 0.05,
   * so a positive time makes every column with a positive volatility divide by the strike.
   */
  method GenerateHeatmapData(m: Libm, format: real -> string, baseS: real, baseK: real, baseV: real, r: real, t: real)
    returns (h: HeatmapData)
    requires Lawful(m) && (t > 0.0 ==> baseK != 0.0)
    ensures |h.spotPrices| == SPOT_STEPS && h.volatilities == AxisLabels(format, baseV, VOL_STEPS)
    ensures |h.callData| == SPOT_STEPS && |h.putData| == SPOT_STEPS
    ensures forall i :: 0 <= i < SPOT_STEPS ==>
              && h.spotPrices[i] == format(SpotLevel(baseS, i))
              && h.callData[i] == CallRow(m, format, SpotLevel(baseS, i), baseK, baseV, r, t, VOL_STEPS)
              && h.putData[i] == PutRow(m, format, SpotLevel(baseS, i), baseK, baseV, r, t, VOL_STEPS)
  {
    var minS := MinSpot(baseS);
    var spotStep := SpotStep(baseS);
    var minV := MinVol(baseV);
    var volStep := VolStep(baseV);

    var spotPrices: seq<string> := [];
    var volatilities: seq<string> := [];
    var callData: seq<seq<string>> := [];
    var putData: seq<seq<string>> := [];

    for i := 0 to SPOT_STEPS
      invariant |spotPrices| == i && |callData| == i && |putData| == i
      invariant volatilities == if i == 0 then [] else AxisLabels(format, baseV, VOL_STEPS)
      invariant forall i' :: 0 <= i' < i ==>
                  && spotPrices[i'] == format(SpotLevel(baseS, i'))
                  && callData[i'] == CallRow(m, format, SpotLevel(baseS, i'), baseK, baseV, r, t, VOL_STEPS)
                  && putData[i'] == PutRow(m, format, SpotLevel(baseS, i'), baseK, baseV, r, t, VOL_STEPS)
    {
      var s := minS + i as real * spotStep;
      assert s == SpotLevel(baseS, i);
      spotPrices := spotPrices + [format(s)];

      var callRow, putRow, labels := PriceHeatmapRow(m, format, s, baseK, baseV, r, t, minV, volStep, i == 0);
      if i == 0 {
        assert volatilities + labels == labels;
      } else {
        assert volatilities + labels == volatilities;
      }
      volatilities := volatilities + labels;

      callData := callData + [callRow];
      putData := putData + [putRow];
    }

    h := HeatmapData(spotPrices, volatilities, callData, putData);
  }

  /** The formatted call prices at spot `s` for the first `n` levels of the volatility axis. */
  function CallRow(m: Libm, format: real -> string, s: real, baseK: real, baseV: real, r: real, t: real, n: nat): seq<string>
    requires Lawful(m) && (t > 0.0 ==> baseK != 0.0)
  {
    if n == 0 then []
    else CallRow(m, format, s, baseK, baseV, r, t, n - 1) + [format(CalculateCallPrice(m, s, baseK, r, VolLevel(baseV, n - 1), t))]
  }

  /** The formatted put prices at spot `s` for the first `n` levels of the volatility axis. */
  function PutRow(m: Libm, format: real -> string, s: real, baseK: real, baseV: real, r: real, t: real, n: nat): seq<string>
    requires Lawful(m) && (t > 0.0 ==> baseK != 0.0)
  {
    if n == 0 then []
    else PutRow(m, format, s, baseK, baseV, r, t, n - 1) + [format(CalculatePutPrice(m, s, baseK, r, VolLevel(baseV, n - 1), t))]
  }

  /** The first `n` formatted levels of the volatility axis. */
  function AxisLabels(format: real -> string, baseV: real, n: nat): seq<string> {
    if n == 0 then [] else AxisLabels(format, baseV, n - 1) + [format(VolLevel(baseV, n - 1))]
  }

  /** Cell `j` of the first `n` call cells of a row is the call price at the `j`-th volatility. */
  lemma {:induction false} CallRowCells(m: Libm, format: real -> string, s: real, baseK: real, baseV: real, r: real, t: real, n: nat)
    requires Lawful(m) && (t > 0.0 ==> baseK != 0.0)
    ensures |CallRow(m, format, s, baseK, baseV, r, t, n)| == n
    ensures forall j :: 0 <= j < n ==>
              CallRow(m, format, s, baseK, baseV, r, t, n)[j] == format(CalculateCallPrice(m, s, baseK, r, VolLevel(baseV, j), t))
  {
    if n > 0 {
      CallRowCells(m, format, s, baseK, baseV, r, t, n - 1);
    }
  }

  /** Cell `j` of the first `n` put cells of a row is the put price at the `j`-th volatility. */
  lemma {:induction false} PutRowCells(m: Libm, format: real -> string, s: real, baseK: real, baseV: real, r: real, t: real, n: nat)
    requires Lawful(m) && (t > 0.0 ==> baseK != 0.0)
    ensures |PutRow(m, format, s, baseK, baseV, r, t, n)| == n
    ensures forall j :: 0 <= j < n ==>
              PutRow(m, format, s, baseK, baseV, r, t, n)[j] == format(CalculatePutPrice(m, s, baseK, r, VolLevel(baseV, j), t))
  {
    if n > 0 {
      PutRowCells(m, format, s, baseK, baseV, r, t, n - 1);
    }
  }

  /** Label `j` of the first `n` labels is the `j`-th volatility level. */
  lemma {:induction false} AxisLabelsLevels(format: real -> string, baseV: real, n: nat)
    ensures |AxisLabels(format, baseV, n)| == n
    ensures forall j :: 0 <= j < n ==> AxisLabels(format, baseV, n)[j] == format(VolLevel(baseV, j))
  {
    if n > 0 {
      AxisLabelsLevels(format, baseV, n - 1);
    }
  }

  /** One row of the heatmap, at spot `s`; the first row also labels the volatility axis. */
  method PriceHeatmapRow(m: Libm, format: real -> string, s: real, baseK: real, baseV: real, r: real, t: real,
                         minV: real, volStep: real, labelAxis: bool)
    returns (callRow: seq<string>, putRow: seq<string>, labels: seq<string>)
    requires Lawful(m) && (t > 0.0 ==> baseK != 0.0)
    requires minV == MinVol(baseV) && volStep == VolStep(baseV)
    ensures callRow == CallRow(m, format, s, baseK, baseV, r, t, VOL_STEPS)
    ensures putRow == PutRow(m, format, s, baseK, baseV, r, t, VOL_STEPS)
    ensures labels == if labelAxis then AxisLabels(format, baseV, VOL_STEPS) else []
  {
    callRow := [];
    putRow := [];
    labels := [];
    for k := 0 to VOL_STEPS
      invariant callRow == CallRow(m, format, s, baseK, baseV, r, t, k)
      invariant putRow == PutRow(m, format, s, baseK, baseV, r, t, k)
      invariant labels == if labelAxis then AxisLabels(format, baseV, k) else []
    {
      var v := minV + k as real * volStep;
      assert v == VolLevel(baseV, k);
      if labelAxis {
        labels := labels + [format(v)];
      }
      var call := CalculateCallPrice(m, s, baseK, r, v, t);
      var put := CalculatePutPrice(m, s, baseK, r, v, t);
      assert callRow + [format(call)] == CallRow(m, format, s, baseK, baseV, r, t, k + 1);
      assert putRow + [format(put)] == PutRow(m, format, s, baseK, baseV, r, t, k + 1);
      callRow := callRow + [format(call)];
      putRow := putRow + [format(put)];
    }
  }

  /** The spot axis runs from 60% to 140% of the base spot in nine equal steps. */
  lemma SpotAxisEnds(baseS: real)
    ensures SpotLevel(baseS, 0) == 0.6 * baseS
    ensures SpotLevel(baseS, SPOT_STEPS - 1) == 1.4 * baseS
    ensures SpotStep(baseS) == 0.8 * baseS / 9.0
  {
  }

  /** For a positive base spot the spot axis is strictly ascending and positive. */
  lemma SpotAxisAscending(baseS: real, i: int, j: int)
    requires baseS > 0.0 && 0 <= i < j
    ensures 0.0 < SpotLevel(baseS, i) < SpotLevel(baseS, j)
  {
    var step := SpotStep(baseS);
    assert step > 0.0;
    PositiveProduct((j - i) as real, step);
    assert SpotLevel(baseS, j) - SpotLevel(baseS, i) == (j - i) as real * step;
    assert i as real * step >= 0.0 by { MulMonotone(i as real, step, 0.0); }
  }

  /** The volatility axis starts at `max(0.2 * base, 0.05)` and ends at `1.8 * base`. */
  lemma VolAxisEnds(baseV: real)
    ensures VolLevel(baseV, 0) == Max(0.2 * baseV, MIN_VOL) >= MIN_VOL
    ensures VolLevel(baseV, VOL_STEPS - 1) == 1.8 * baseV
  {
  }

  /**
   * Every column of the volatility axis has a positive volatility when the base is
   * positive: each level lies between the two ends.
   */
  lemma VolAxisPositive(baseV: real, j: int)
    requires baseV > 0.0 && 0 <= j < VOL_STEPS
    ensures VolLevel(baseV, j) > 0.0
  {
    var lo := MinVol(baseV);
    var hi := MaxVol(baseV);
    var w := j as real / 9.0;
    assert VolLevel(baseV, j) == (1.0 - w) * lo + w * hi;
    MulMonotone(1.0 - w, lo, 0.0);
    if j > 0 {
      PositiveProduct(w, hi);
    }
  }

  /** The volatility axis ascends strictly exactly when `1.8 * base` exceeds its floor. */
  lemma VolAxisAscending(baseV: real, i: int, j: int)
    requires 0 <= i < j
    ensures VolLevel(baseV, i) < VolLevel(baseV, j) <==> MaxVol(baseV) > MinVol(baseV)
  {
    var step := VolStep(baseV);
    assert VolLevel(baseV, j) - VolLevel(baseV, i) == (j - i) as real * step;
    SignOfProduct((j - i) as real, step);
  }

  lemma SignOfProduct(a: real, b: real)
    requires a > 0.0
    ensures a * b > 0.0 <==> b > 0.0
  {
    if b > 0.0 {
      PositiveProduct(a, b);
    } else {
      MulMonotone(a, 0.0, b);
    }
  }
}
