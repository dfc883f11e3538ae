/**
 * The sequential Monte Carlo pricer for European options. Each path moves the spot by
 * geometric Brownian motion, `S_T = S_0 * exp((r - v^2/2) t + v sqrt(t) z)`, and pays
 * `max(S_T - K, 0)` (call) or `max(K - S_T, 0)` (put). The standard-normal samples `z`
 * are an input sequence: `draws[i]` is the sample of path `i`.
 */
module MonteCarloEngine {
  import opened RealMath
  import opened Sums
  import opened MonteCarloModels
  import BlackScholes

  // ---------------------------------------------------------------------------
  // One path (shared with the parallel engine)
  // ---------------------------------------------------------------------------

  /** The deterministic part of the log-return, `(r - v^2/2) t`. */
  function Drift(p: MonteCarloRequest): real {
    (p.riskFreeRate - 0.5 * (p.volatility * p.volatility)) * p.timeToExpiry
  }

  /** The scale of the random part of the log-return, `v sqrt(t)`. */
  function Diffusion(m: Libm, p: MonteCarloRequest): real {
    p.volatility * Sqrt(m, p.timeToExpiry)
  }

  /** One step of geometric Brownian motion from `spot`, driven by the sample `z`. */
  function GbmStep(m: Libm, spot: real, drift: real, diffusion: real, z: real): real {
    spot * Exp(m, drift + diffusion * z)
  }

  function FinalPrice(m: Libm, p: MonteCarloRequest, z: real): real {
    GbmStep(m, p.spotPrice, Drift(p), Diffusion(m, p), z)
  }

  function CallPayoff(m: Libm, p: MonteCarloRequest, z: real): real {
    Max(FinalPrice(m, p, z) - p.strikePrice, 0.0)
  }

  function PutPayoff(m: Libm, p: MonteCarloRequest, z: real): real {
    Max(p.strikePrice - FinalPrice(m, p, z), 0.0)
  }

  function DiscountFactor(m: Libm, p: MonteCarloRequest): real {
    Exp(m, -p.riskFreeRate * p.timeToExpiry)
  }

  /**
   * On every path both payoffs are non-negative, at most one is positive, and the call
   * payoff minus the put payoff is the final price minus the strike.
   */
  lemma PayoffParity(m: Libm, p: MonteCarloRequest, z: real)
    ensures CallPayoff(m, p, z) >= 0.0 && PutPayoff(m, p, z) >= 0.0
    ensures CallPayoff(m, p, z) == 0.0 || PutPayoff(m, p, z) == 0.0
    ensures CallPayoff(m, p, z) - PutPayoff(m, p, z) == FinalPrice(m, p, z) - p.strikePrice
  {
    var f := FinalPrice(m, p, z);
    if f >= p.strikePrice {
      assert PutPayoff(m, p, z) == 0.0;
    } else {
      assert CallPayoff(m, p, z) == 0.0;
    }
  }

  // ---------------------------------------------------------------------------
  // Specification of the estimate
  // ---------------------------------------------------------------------------

  function CallPayoffs(m: Libm, p: MonteCarloRequest, draws: seq<real>): (xs: seq<real>)
    ensures |xs| == |draws| && forall i :: 0 <= i < |draws| ==> xs[i] == CallPayoff(m, p, draws[i])
  {
    seq(|draws|, i requires 0 <= i < |draws| => CallPayoff(m, p, draws[i]))
  }

  function PutPayoffs(m: Libm, p: MonteCarloRequest, draws: seq<real>): (xs: seq<real>)
    ensures |xs| == |draws| && forall i :: 0 <= i < |draws| ==> xs[i] == PutPayoff(m, p, draws[i])
  {
    seq(|draws|, i requires 0 <= i < |draws| => PutPayoff(m, p, draws[i]))
  }

  function FinalPrices(m: Libm, p: MonteCarloRequest, draws: seq<real>): (xs: seq<real>)
    ensures |xs| == |draws| && forall i :: 0 <= i < |draws| ==> xs[i] == FinalPrice(m, p, draws[i])
  {
    seq(|draws|, i requires 0 <= i < |draws| => FinalPrice(m, p, draws[i]))
  }

  /** The symmetric 95% interval `price -/+ 1.96 * se`. */
  function ConfidenceInterval95(price: real, standardError: real): (ci: (real, real))
    ensures ci.0 <= price <= ci.1 <==> standardError >= 0.0
    ensures ci.1 - price == price - ci.0 == 1.96 * standardError
  {
    (price - 1.96 * standardError, price + 1.96 * standardError)
  }

  /** `total / n * df`: a mean payoff, discounted. */
  function DiscountedMean(total: real, n: nat, df: real): (price: real)
    requires n > 0
    ensures total >= 0.0 && df > 0.0 ==> price >= 0.0
  {
    total / n as real * df
  }

  /** The sample variance: a sum of squared deviations divided by `n - 1`. */
  function SampleVariance(squaredDeviations: real, n: nat): (variance: real)
    requires n >= 2
    ensures squaredDeviations >= 0.0 ==> variance >= 0.0
  {
    squaredDeviations / (n - 1) as real
  }

  /** The discounted mean times the sample count gives back the discounted total. */
  lemma DiscountedMeanTimesCount(total: real, n: nat, df: real)
    requires n > 0
    ensures DiscountedMean(total, n, df) * n as real == total * df
  {
    assert total / n as real * n as real == total;
  }

  /** The sample variance times `n - 1` gives back the sum of squared deviations. */
  lemma SampleVarianceTimesDegrees(squaredDeviations: real, n: nat)
    requires n >= 2
    ensures SampleVariance(squaredDeviations, n) * (n - 1) as real == squaredDeviations
  {
  }

  /** `sqrt(variance / n)`. */
  function StandardError(m: Libm, variance: real, n: nat): (se: real)
    requires n > 0
    ensures Lawful(m) && variance >= 0.0 ==> se >= 0.0 && se * se * n as real == variance
  {
    var q := variance / n as real;
    assert Lawful(m) && variance >= 0.0 ==> q >= 0.0 && Sqrt(m, q) * Sqrt(m, q) == q;
    Sqrt(m, q)
  }

  /**
   * The reduction the sequential engine applies to its payoff vectors: discounted mean
   * payoffs, the sample variance of the discounted call payoffs about the call price,
   * the standard error and the 95% interval.
   */
  function EstimateFromPayoffs(m: Libm, p: MonteCarloRequest, calls: seq<real>, puts: seq<real>): MonteCarloResult
    requires p.numSimulations >= 2
  {
    var df := DiscountFactor(m, p);
    var callPrice := DiscountedMean(Sum(calls), p.numSimulations, df);
    var putPrice := DiscountedMean(Sum(puts), p.numSimulations, df);
    var variance := SampleVariance(SumSquaredDeviations(Scale(calls, df), callPrice), p.numSimulations);
    var standardError := StandardError(m, variance, p.numSimulations);
    MonteCarloResult(callPrice, putPrice, standardError, ConfidenceInterval95(callPrice, standardError))
  }

  /** What the sequential engine computes from the samples `draws`. */
  function SequentialEstimate(m: Libm, p: MonteCarloRequest, draws: seq<real>): MonteCarloResult
    requires p.numSimulations >= 2
  {
    EstimateFromPayoffs(m, p, CallPayoffs(m, p, draws), PutPayoffs(m, p, draws))
  }

  // ---------------------------------------------------------------------------
  // The engine
  // ---------------------------------------------------------------------------

  /**
   * Prices a European call and put from `numSimulations` paths. With 0 paths the code
   * divides 0 by 0 and then underflows `numSimulations - 1`; with 1 path the variance
   * divides by 0; so the count must be at least 2.
   */
  method PriceEuropeanOption(m: Libm, params: MonteCarloRequest, draws: seq<real>) returns (result: MonteCarloResult)
    requires params.numSimulations >= 2 && |draws| == params.numSimulations
    ensures result == SequentialEstimate(m, params, draws)
  {
    var callPayoffs: seq<real> := [];
    var putPayoffs: seq<real> := [];

    var drift := Drift(params);
    var diffusion := Diffusion(m, params);

    for i := 0 to params.numSimulations
      invariant |callPayoffs| == i && |putPayoffs| == i
      invariant forall j :: 0 <= j < i ==> callPayoffs[j] == CallPayoff(m, params, draws[j])
      invariant forall j :: 0 <= j < i ==> putPayoffs[j] == PutPayoff(m, params, draws[j])
    {
      var z := draws[i];
      var finalPrice := GbmStep(m, params.spotPrice, drift, diffusion, z);
      var callPayoff := Max(finalPrice - params.strikePrice, 0.0);
      var putPayoff := Max(params.strikePrice - finalPrice, 0.0);
      callPayoffs := callPayoffs + [callPayoff];
      putPayoffs := putPayoffs + [putPayoff];
    }
    assert callPayoffs == CallPayoffs(m, params, draws);
    assert putPayoffs == PutPayoffs(m, params, draws);

    var discountFactor := DiscountFactor(m, params);
    var callPrice := DiscountedMean(Sum(callPayoffs), params.numSimulations, discountFactor);
    var putPrice := DiscountedMean(Sum(putPayoffs), params.numSimulations, discountFactor);

    var callVariance := SampleVariance(SumSquaredDeviations(Scale(callPayoffs, discountFactor), callPrice), params.numSimulations);
    var standardError := StandardError(m, callVariance, params.numSimulations);

    var marginOfError := 1.96 * standardError;
    result := MonteCarloResult(callPrice, putPrice, standardError, (callPrice - marginOfError, callPrice + marginOfError));
  }

  /** The Monte Carlo estimate beside the analytic prices of the same request, with absolute gaps. */
  method CompareWithBlackScholes(m: Libm, params: MonteCarloRequest, draws: seq<real>) returns (c: ComparisonResult)
    requires Lawful(m) && params.numSimulations >= 2 && |draws| == params.numSimulations
    requires BlackScholes.PricingDefined(params.strikePrice, params.volatility, params.timeToExpiry)
    ensures c.monteCarlo == SequentialEstimate(m, params, draws)
    ensures c.blackScholes.callPrice
            == BlackScholes.CalculateCallPrice(m, params.spotPrice, params.strikePrice, params.riskFreeRate, params.volatility, params.timeToExpiry)
    ensures c.blackScholes.putPrice
            == BlackScholes.CalculatePutPrice(m, params.spotPrice, params.strikePrice, params.riskFreeRate, params.volatility, params.timeToExpiry)
    ensures c.callPriceDiff >= 0.0 && c.putPriceDiff >= 0.0
    ensures c.callPriceDiff == 0.0 <==> c.monteCarlo.callPrice == c.blackScholes.callPrice
    ensures c.putPriceDiff == 0.0 <==> c.monteCarlo.putPrice == c.blackScholes.putPrice
    ensures c.callPriceDiff == c.monteCarlo.callPrice - c.blackScholes.callPrice
            || c.callPriceDiff == c.blackScholes.callPrice - c.monteCarlo.callPrice
    ensures c.putPriceDiff == c.monteCarlo.putPrice - c.blackScholes.putPrice
            || c.putPriceDiff == c.blackScholes.putPrice - c.monteCarlo.putPrice
  {
    var mcResult := PriceEuropeanOption(m, params, draws);
    var bsResult := BlackScholes.CalculateOptionsPrices(
      m, params.spotPrice, params.strikePrice, params.riskFreeRate, params.volatility, params.timeToExpiry);
    c := ComparisonResult(
      mcResult,
      bsResult,
      Abs(mcResult.callPrice - bsResult.callPrice),
      Abs(mcResult.putPrice - bsResult.putPrice));
  }

  // ---------------------------------------------------------------------------
  // Properties of the estimate
  // ---------------------------------------------------------------------------

  /**
   * Both prices are non-negative, the standard error is non-negative, and the 95%
   * interval is centred on the call price with half-width `1.96 * se`, so it contains it.
   */
  lemma EstimateBounds(m: Libm, p: MonteCarloRequest, draws: seq<real>)
    requires Lawful(m) && p.numSimulations >= 2
    ensures var r := SequentialEstimate(m, p, draws);
            && r.callPrice >= 0.0 && r.putPrice >= 0.0 && r.standardError >= 0.0
            && r.confidenceInterval95.0 <= r.callPrice <= r.confidenceInterval95.1
            && r.confidenceInterval95.1 - r.callPrice == r.callPrice - r.confidenceInterval95.0 == 1.96 * r.standardError
  {
    var df := DiscountFactor(m, p);
    var calls := CallPayoffs(m, p, draws);
    var puts := PutPayoffs(m, p, draws);
    var r := SequentialEstimate(m, p, draws);
    var deviations := SumSquaredDeviations(Scale(calls, df), r.callPrice);
    assert r.callPrice == DiscountedMean(Sum(calls), p.numSimulations, df);
    assert r.putPrice == DiscountedMean(Sum(puts), p.numSimulations, df);
    assert r.standardError == StandardError(m, SampleVariance(deviations, p.numSimulations), p.numSimulations);
    assert r.confidenceInterval95 == ConfidenceInterval95(r.callPrice, r.standardError);
    DiscountFactorPositive(m, p);
    PayoffSumsNonNegative(m, p, draws);
    SumSquaredDeviationsNonNegative(Scale(calls, df), r.callPrice);
  }

  /** The discount factor `exp(-r t)` is positive. */
  lemma DiscountFactorPositive(m: Libm, p: MonteCarloRequest)
    requires Lawful(m)
    ensures DiscountFactor(m, p) > 0.0
  {
    ExpPositive(m, -p.riskFreeRate * p.timeToExpiry);
  }

  /** Summed over any draws, the call payoffs and the put payoffs are non-negative. */
  lemma PayoffSumsNonNegative(m: Libm, p: MonteCarloRequest, draws: seq<real>)
    ensures Sum(CallPayoffs(m, p, draws)) >= 0.0 && Sum(PutPayoffs(m, p, draws)) >= 0.0
  {
    var calls := CallPayoffs(m, p, draws);
    var puts := PutPayoffs(m, p, draws);
    forall i | 0 <= i < |draws| ensures calls[i] >= 0.0 && puts[i] >= 0.0 {
      PayoffParity(m, p, draws[i]);
    }
    SumNonNegative(calls);
    SumNonNegative(puts);
  }

  /**
   * The call price is the mean of the discounted call payoffs, which is the centre the
   * sample variance is taken about.
   */
  lemma EstimateIsDiscountedMean(m: Libm, p: MonteCarloRequest, draws: seq<real>)
    requires p.numSimulations >= 2
    ensures SequentialEstimate(m, p, draws).callPrice
            == Sum(Scale(CallPayoffs(m, p, draws), DiscountFactor(m, p))) / p.numSimulations as real
    ensures SequentialEstimate(m, p, draws).putPrice
            == Sum(Scale(PutPayoffs(m, p, draws), DiscountFactor(m, p))) / p.numSimulations as real
  {
    var df := DiscountFactor(m, p);
    var calls := CallPayoffs(m, p, draws);
    var puts := PutPayoffs(m, p, draws);
    var r := SequentialEstimate(m, p, draws);
    assert r.callPrice == DiscountedMean(Sum(calls), p.numSimulations, df);
    assert r.putPrice == DiscountedMean(Sum(puts), p.numSimulations, df);
    MeanOfScaled(calls, p.numSimulations, df);
    MeanOfScaled(puts, p.numSimulations, df);
  }

  /** Discounting the mean is taking the mean of the discounted values. */
  lemma MeanOfScaled(xs: seq<real>, n: nat, df: real)
    requires n > 0
    ensures DiscountedMean(Sum(xs), n, df) == Sum(Scale(xs, df)) / n as real
  {
    SumScale(xs, df);
    DiscountedMeanTimesCount(Sum(xs), n, df);
    QuotientOfProduct(DiscountedMean(Sum(xs), n, df), Sum(xs) * df, n as real);
  }

  lemma QuotientOfProduct(x: real, y: real, n: real)
    requires n != 0.0 && x * n == y
    ensures x == y / n
  {
  }

  /**
   * Monte Carlo put-call parity: the call estimate minus the put estimate is the
   * discounted mean final price minus the discounted strike, for any samples.
   */
  lemma EstimateParity(m: Libm, p: MonteCarloRequest, draws: seq<real>)
    requires p.numSimulations >= 2 && |draws| == p.numSimulations
    ensures var r := SequentialEstimate(m, p, draws);
            var df := DiscountFactor(m, p);
            r.callPrice - r.putPrice == (Sum(FinalPrices(m, p, draws)) / p.numSimulations as real - p.strikePrice) * df
  {
    var calls := CallPayoffs(m, p, draws);
    var puts := PutPayoffs(m, p, draws);
    var finals := FinalPrices(m, p, draws);
    forall i | 0 <= i < |draws| ensures calls[i] - puts[i] == finals[i] - p.strikePrice {
      PayoffParity(m, p, draws[i]);
    }
    SumOfDifferences(calls, puts, finals, p.strikePrice);
    ParityOfMeans(Sum(calls), Sum(puts), Sum(finals), p.strikePrice, p.numSimulations as real, DiscountFactor(m, p));
  }

  lemma ParityOfMeans(c: real, q: real, f: real, k: real, n: real, df: real)
    requires n > 0.0 && c - q == f - n * k
    ensures c / n * df - q / n * df == (f / n - k) * df
  {
    assert c / n - q / n == (c - q) / n;
    assert (f - n * k) / n == f / n - k;
  }
}
