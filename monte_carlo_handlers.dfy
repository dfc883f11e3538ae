/**
 * The computational part of the Monte Carlo endpoints: request validation, the
 * percent differences of the comparison endpoint, and the convergence sweep that
 * reprices at `step, 2 step, ...` paths. Timing and the HTTP wrappers are not modelled.
 * Each engine run takes its samples as an input sequence.
 */
module MonteCarloHandlers {
  import opened Wrappers
  import opened RealMath
  import opened MonteCarloModels
  import BlackScholes
  import MonteCarloEngine
  import ParallelMonteCarloEngine

  datatype StatusCode = BadRequest

  // ---------------------------------------------------------------------------
  // Validation
  // ---------------------------------------------------------------------------

  /** The check all four endpoints make: spot, strike, time and volatility positive; the rate is free. */
  predicate InputsPositive(spot: real, strike: real, timeToExpiry: real, volatility: real) {
    spot > 0.0 && strike > 0.0 && timeToExpiry > 0.0 && volatility > 0.0
  }

  /** The pricing and comparison endpoints as written: only the four inputs are checked, never the path count. */
  predicate AsWrittenAccepts(req: MonteCarloRequest) {
    InputsPositive(req.spotPrice, req.strikePrice, req.timeToExpiry, req.volatility)
  }

  /** The sequential engine needs two paths: its variance divides by `n - 1`. */
  predicate AcceptsSequential(req: MonteCarloRequest) {
    AsWrittenAccepts(req) && req.numSimulations >= 2
  }

  /** The chunked engine needs one path: its mean divides by `n`. */
  predicate AcceptsParallel(req: MonteCarloRequest) {
    AsWrittenAccepts(req) && req.numSimulations >= 1
  }

  /**
   * As written, a one-path request passes validation although the sequential
   * engine's variance divisor `n - 1` is then 0. The sequential pricing endpoint and
   * the comparison endpoint make the same check and both run that engine.
   */
  lemma AsWrittenAcceptsOnePath()
    ensures var req := MonteCarloRequest(100.0, 100.0, 1.0, 0.05, 0.2, 1);
            AsWrittenAccepts(req) && !AcceptsSequential(req) && req.numSimulations - 1 == 0
  {
  }

  /**
   * As written, a zero-path request passes validation although the chunked engine
   * then has no chunks and folds a total count of 0, which it divides by.
   */
  lemma AsWrittenAcceptsNoPaths()
    ensures var req := MonteCarloRequest(100.0, 100.0, 1.0, 0.05, 0.2, 0);
            && AsWrittenAccepts(req) && !AcceptsParallel(req)
            && ParallelMonteCarloEngine.NumChunks(req.numSimulations) == 0
            && ParallelMonteCarloEngine.Accumulate([]).0 == 0
  {
  }

  /** The server's default path count and sweep pass the corrected checks; the default sweep has 20 points. */
  lemma DefaultsAccepted()
    ensures DEFAULT_NUM_SIMULATIONS >= 2 && DEFAULT_STEP_SIZE >= 2
    ensures DEFAULT_MAX_SIMULATIONS / DEFAULT_STEP_SIZE == 20
  {
  }

  // ---------------------------------------------------------------------------
  // Pricing endpoints
  // ---------------------------------------------------------------------------

  /** The response of a pricing endpoint: the engine's result and the requested path count. */
  function Respond(req: MonteCarloRequest, e: MonteCarloResult): (res: MonteCarloResponse)
    ensures res.callPrice == e.callPrice && res.putPrice == e.putPrice
    ensures res.standardError == e.standardError && res.confidenceInterval95 == e.confidenceInterval95
    ensures res.numSimulations == req.numSimulations
  {
    MonteCarloResponse(e.callPrice, e.putPrice, e.standardError, e.confidenceInterval95, req.numSimulations)
  }

  /** The sequential pricing endpoint: rejected exactly when validation fails, otherwise the engine's estimate. */
  method GetMonteCarloPrice(m: Libm, req: MonteCarloRequest, draws: seq<real>) returns (r: Result<MonteCarloResponse, StatusCode>)
    requires |draws| == req.numSimulations
    ensures r.Err? <==> !AcceptsSequential(req)
    ensures r.Err? ==> r.error == BadRequest
    ensures r.Ok? ==> r.value == Respond(req, MonteCarloEngine.SequentialEstimate(m, req, draws))
  {
    if !AcceptsSequential(req) {
      return Err(BadRequest);
    }
    var result := MonteCarloEngine.PriceEuropeanOption(m, req, draws);
    r := Ok(Respond(req, result));
  }

  /** The chunked pricing endpoint: rejected exactly when validation fails, otherwise the pooled estimate. */
  method GetMonteCarloPriceParallel(m: Libm, req: MonteCarloRequest, draws: seq<real>) returns (r: Result<MonteCarloResponse, StatusCode>)
    requires |draws| == req.numSimulations
    ensures r.Err? <==> !AcceptsParallel(req)
    ensures r.Err? ==> r.error == BadRequest
    ensures r.Ok? ==> r.value == Respond(req, ParallelMonteCarloEngine.PooledEstimate(m, req, draws))
  {
    if !AcceptsParallel(req) {
      return Err(BadRequest);
    }
    var result := ParallelMonteCarloEngine.PriceEuropeanOption(m, req, draws);
    r := Ok(Respond(req, result));
  }

  /**
   * A difference as a percentage of the analytic price, or 0 when that price is 0.
   * A non-negative difference over a positive price is a non-negative percentage.
   */
  function PercentDifference(diff: real, price: real): (pct: real)
    ensures price != 0.0 ==> pct * price == diff * 100.0
    ensures price == 0.0 ==> pct == 0.0
    ensures diff >= 0.0 && price > 0.0 ==> pct >= 0.0
  {
    if price != 0.0 then (diff / price) * 100.0 else 0.0
  }

  /**
   * The comparison endpoint: the Monte Carlo estimate, the analytic prices of the same
   * request, their absolute gaps and the gaps as percentages of the analytic prices.
   */
  method GetMonteCarloComparison(m: Libm, req: MonteCarloRequest, draws: seq<real>) returns (r: Result<ComparisonResponse, StatusCode>)
    requires Lawful(m) && |draws| == req.numSimulations
    ensures r.Err? <==> !AcceptsSequential(req)
    ensures r.Err? ==> r.error == BadRequest
    ensures r.Ok? ==>
              var mc := MonteCarloEngine.SequentialEstimate(m, req, draws);
              var bs := BlackScholes.CalculateOptionsPrices(
                m, req.spotPrice, req.strikePrice, req.riskFreeRate, req.volatility, req.timeToExpiry);
              var d := r.value.differences;
              && r.value.monteCarlo == Respond(req, mc)
              && r.value.blackScholes == bs
              && d.callPriceDiff == Abs(mc.callPrice - bs.callPrice)
              && d.putPriceDiff == Abs(mc.putPrice - bs.putPrice)
              && d.callPriceDiffPercent == PercentDifference(d.callPriceDiff, bs.callPrice)
              && d.putPriceDiffPercent == PercentDifference(d.putPriceDiff, bs.putPrice)
  {
    if !AcceptsSequential(req) {
      return Err(BadRequest);
    }
    var comparison := MonteCarloEngine.CompareWithBlackScholes(m, req, draws);
    var differences := PriceDifferences(
      comparison.callPriceDiff,
      comparison.putPriceDiff,
      PercentDifference(comparison.callPriceDiff, comparison.blackScholes.callPrice),
      PercentDifference(comparison.putPriceDiff, comparison.blackScholes.putPrice));
    r := Ok(ComparisonResponse(Respond(req, comparison.monteCarlo), comparison.blackScholes, differences));
  }

  // ---------------------------------------------------------------------------
  // Convergence sweep
  // ---------------------------------------------------------------------------

  /** The convergence endpoint as written: only the four inputs are checked, not the step. */
  predicate AsWrittenAcceptsConvergence(req: ConvergenceRequest) {
    InputsPositive(req.spotPrice, req.strikePrice, req.timeToExpiry, req.volatility)
  }

  /** A step of at least 2 keeps the iteration defined and every run at two paths or more. */
  predicate AcceptsConvergence(req: ConvergenceRequest) {
    AsWrittenAcceptsConvergence(req) && req.stepSize >= 2
  }

  /**
   * As written, a step of 0 passes validation (the stepped iteration then panics), and
   * a step of 1 passes with its first run at a single path, where the variance divisor is 0.
   */
  lemma AsWrittenAcceptsSmallSteps()
    ensures var req0 := ConvergenceRequest(100.0, 100.0, 1.0, 0.05, 0.2, 10, 0);
            AsWrittenAcceptsConvergence(req0) && !AcceptsConvergence(req0)
    ensures var req1 := ConvergenceRequest(100.0, 100.0, 1.0, 0.05, 0.2, 10, 1);
            && AsWrittenAcceptsConvergence(req1) && !AcceptsConvergence(req1)
            && SweepCount(0, req1.stepSize) == 1 && SweepCount(0, req1.stepSize) - 1 == 0
  {
  }

  /** The path count of the `i`-th run of the sweep. */
  function SweepCount(i: nat, step: nat): nat {
    (i + 1) * step
  }

  /** The request of a sweep run: the convergence request's inputs with `n` paths. */
  function RunParams(req: ConvergenceRequest, n: nat): (p: MonteCarloRequest)
    ensures p.spotPrice == req.spotPrice && p.strikePrice == req.strikePrice
    ensures p.timeToExpiry == req.timeToExpiry && p.riskFreeRate == req.riskFreeRate
    ensures p.volatility == req.volatility && p.numSimulations == n
  {
    MonteCarloRequest(req.spotPrice, req.strikePrice, req.timeToExpiry, req.riskFreeRate, req.volatility, n)
  }

  /** The point a run of `n` paths on the samples `zs` contributes. */
  function SweepPoint(m: Libm, req: ConvergenceRequest, n: nat, zs: seq<real>): (pt: ConvergencePoint)
    requires n >= 2
    ensures pt.numSimulations == n
    ensures pt.callPrice == MonteCarloEngine.SequentialEstimate(m, RunParams(req, n), zs).callPrice
    ensures pt.standardError == MonteCarloEngine.SequentialEstimate(m, RunParams(req, n), zs).standardError
  {
    var e := MonteCarloEngine.SequentialEstimate(m, RunParams(req, n), zs);
    ConvergencePoint(n, e.callPrice, e.standardError)
  }

  /** The gap between the last point's call price and the analytic one; 0 for an empty sweep. */
  function FinalDifference(data: seq<ConvergencePoint>, reference: real): (d: real)
    ensures d >= 0.0
    ensures |data| == 0 ==> d == 0.0
    ensures |data| > 0 ==> (d == 0.0 <==> data[|data| - 1].callPrice == reference)
    ensures |data| > 0 ==> d == data[|data| - 1].callPrice - reference || d == reference - data[|data| - 1].callPrice
  {
    if |data| > 0 then Abs(data[|data| - 1].callPrice - reference) else 0.0
  }

  /**
   * The convergence endpoint. After validation it prices the analytic call once, then
   * reruns the sequential engine at `step, 2 step, ...` up to `maxSimulations`:
   * `maxSimulations / step` runs, run `i` at `SweepCount(i, step)` paths on the
   * samples `draws(SweepCount(i, step))`.
   */
  method GetConvergenceAnalysis(m: Libm, req: ConvergenceRequest, draws: nat -> seq<real>)
    returns (r: Result<ConvergenceResponse, StatusCode>)
    requires Lawful(m)
    requires forall n: nat :: |draws(n)| == n
    ensures r.Err? <==> !AcceptsConvergence(req)
    ensures r.Err? ==> r.error == BadRequest
    ensures r.Ok? ==>
              var reference := BlackScholes.CalculateCallPrice(
                m, req.spotPrice, req.strikePrice, req.riskFreeRate, req.volatility, req.timeToExpiry);
              var data := r.value.convergenceData;
              && r.value.blackScholesReference == reference
              && |data| == req.maxSimulations / req.stepSize
              && SweepPoints(m, req, draws, data)
              && r.value.finalDifference == FinalDifference(data, reference)
  {
    if !AcceptsConvergence(req) {
      return Err(BadRequest);
    }
    var bsResult := BlackScholes.CalculateOptionsPrices(
      m, req.spotPrice, req.strikePrice, req.riskFreeRate, req.volatility, req.timeToExpiry);
    var convergenceData := Sweep(m, req, draws);
    var finalDifference := FinalDifference(convergenceData, bsResult.callPrice);
    r := Ok(ConvergenceResponse(convergenceData, bsResult.callPrice, finalDifference));
  }

  /**
   * The sweep loop: runs at `step, 2 step, ...` while the count stays within
   * `maxSimulations`, one point per run.
   */
  method Sweep(m: Libm, req: ConvergenceRequest, draws: nat -> seq<real>) returns (data: seq<ConvergencePoint>)
    requires req.stepSize >= 2
    requires forall n: nat :: |draws(n)| == n
    ensures |data| == req.maxSimulations / req.stepSize
    ensures SweepPoints(m, req, draws, data)
  {
    var step := req.stepSize;
    data := [];
    var numSims := step;
    while numSims <= req.maxSimulations
      invariant numSims == SweepCount(|data|, step)
      invariant |data| <= req.maxSimulations / step
      invariant SweepPoints(m, req, draws, data)
      decreases req.maxSimulations - numSims + step
    {
      BelowMaxIffBelowQuotient(|data| + 1, step, req.maxSimulations);
      SweepAtLeastStep(|data|, step);
      var point := RunPoint(m, req, numSims, draws(numSims));
      SweepNext(|data|, step);
      SweepPointsSnoc(m, req, draws, data, point);
      data := data + [point];
      numSims := numSims + step;
    }
    BelowMaxIffBelowQuotient(|data| + 1, step, req.maxSimulations);
  }

  /** Point `i` of `data` is the run at `SweepCount(i, step)` paths on its own samples. */
  predicate SweepPoints(m: Libm, req: ConvergenceRequest, draws: nat -> seq<real>, data: seq<ConvergencePoint>) {
    forall i :: 0 <= i < |data| ==>
      SweepCount(i, req.stepSize) >= 2
      && data[i] == SweepPoint(m, req, SweepCount(i, req.stepSize), draws(SweepCount(i, req.stepSize)))
  }

  lemma SweepPointsSnoc(m: Libm, req: ConvergenceRequest, draws: nat -> seq<real>, data: seq<ConvergencePoint>, point: ConvergencePoint)
    requires SweepPoints(m, req, draws, data)
    requires SweepCount(|data|, req.stepSize) >= 2
    requires point == SweepPoint(m, req, SweepCount(|data|, req.stepSize), draws(SweepCount(|data|, req.stepSize)))
    ensures SweepPoints(m, req, draws, data + [point])
  {
  }

  /** One run of the sweep: the sequential engine at `n` paths, reduced to a point. */
  method RunPoint(m: Libm, req: ConvergenceRequest, n: nat, zs: seq<real>) returns (point: ConvergencePoint)
    requires n >= 2 && |zs| == n
    ensures point == SweepPoint(m, req, n, zs)
  {
    var params := RunParams(req, n);
    var mcResult := MonteCarloEngine.PriceEuropeanOption(m, params, zs);
    point := ConvergencePoint(n, mcResult.callPrice, mcResult.standardError);
  }

  /** `k` runs of `step` paths fit under `max` exactly when `k` is at most `max / step`. */
  lemma BelowMaxIffBelowQuotient(k: nat, step: nat, max: nat)
    requires step > 0
    ensures k * step <= max <==> k <= max / step
  {
    var q := max / step;
    assert max == q * step + max % step;
    if k <= q {
      MulMonotone(k, q, step);
    } else {
      MulMonotone(q + 1, k, step);
      assert (q + 1) * step == q * step + step;
    }
  }

  lemma MulMonotone(a: nat, b: nat, c: nat)
    requires a <= b
    ensures a * c <= b * c
  {
    assert b * c == a * c + (b - a) * c;
  }

  lemma MulStrict(a: nat, b: nat, c: nat)
    requires a < b
    ensures a * c + c <= b * c
  {
    MulMonotone(a + 1, b, c);
    assert (a + 1) * c == a * c + c;
  }

  /** No run has fewer paths than the step. */
  lemma SweepAtLeastStep(i: nat, step: nat)
    ensures SweepCount(i, step) >= step
  {
    MulMonotone(1, i + 1, step);
  }

  /** Each run has `step` more paths than the one before. */
  lemma SweepNext(i: nat, step: nat)
    ensures SweepCount(i + 1, step) == SweepCount(i, step) + step
  {
    assert (i + 2) * step == (i + 1) * step + step;
  }

  /** The sweep counts rise strictly with the run index. */
  lemma SweepAscending(i: nat, j: nat, step: nat)
    requires i < j && step > 0
    ensures SweepCount(i, step) < SweepCount(j, step)
  {
    MulMonotone(i + 2, j + 1, step);
    assert (i + 2) * step == (i + 1) * step + step;
  }

  /**
   * The sweep visits exactly the positive multiples of `step` that do not exceed `max`:
   * `x` is some run's count if and only if `step <= x <= max` and `step` divides `x`.
   */
  lemma SweepVisitsMultiples(step: nat, max: nat, x: nat)
    requires step > 0
    ensures (exists i: nat :: i < max / step && SweepCount(i, step) == x)
            <==> (step <= x <= max && x % step == 0)
  {
    if exists i: nat :: i < max / step && SweepCount(i, step) == x {
      var i: nat :| i < max / step && SweepCount(i, step) == x;
      BelowMaxIffBelowQuotient(i + 1, step, max);
      MulMonotone(1, i + 1, step);
      DivModOfMultiple(i + 1, step);
    }
    if step <= x <= max && x % step == 0 {
      var q := x / step;
      assert x == q * step;
      if q == 0 {
        assert false;
      }
      BelowMaxIffBelowQuotient(q, step, max);
      assert SweepCount(q - 1, step) == x;
    }
  }

  lemma DivModOfMultiple(q: nat, step: nat)
    requires step > 0
    ensures (q * step) / step == q && (q * step) % step == 0
  {
    var x := q * step;
    var d := x / step;
    var r := x % step;
    assert x == d * step + r;
    if d < q {
      MulStrict(d, q, step);
      assert false;
    } else if d > q {
      MulStrict(q, d, step);
      assert false;
    }
  }
}
