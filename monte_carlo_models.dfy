/**
 * Requests, results and responses of the Monte Carlo endpoints. Prices are reals;
 * simulation counts are `nat` (the server's `usize`). Wall-clock durations
 * (`computation_time_ms`, `time_ms`) are not part of the model.
 */
module MonteCarloModels {
  import BlackScholes

  /** The count used when a request omits `num_simulations`. */
  const DEFAULT_NUM_SIMULATIONS: nat := 100000
  /** The defaults of a convergence request that omits `max_simulations` or `step_size`. */
  const DEFAULT_MAX_SIMULATIONS: nat := 10000000
  const DEFAULT_STEP_SIZE: nat := 500000

  datatype MonteCarloRequest = MonteCarloRequest(
    spotPrice: real,
    strikePrice: real,
    timeToExpiry: real,
    riskFreeRate: real,
    volatility: real,
    numSimulations: nat)

  /** `confidenceInterval95` is the pair (low, high). */
  datatype MonteCarloResult = MonteCarloResult(
    callPrice: real,
    putPrice: real,
    standardError: real,
    confidenceInterval95: (real, real))

  datatype MonteCarloResponse = MonteCarloResponse(
    callPrice: real,
    putPrice: real,
    standardError: real,
    confidenceInterval95: (real, real),
    numSimulations: nat)

  datatype ComparisonResult = ComparisonResult(
    monteCarlo: MonteCarloResult,
    blackScholes: BlackScholes.BlackScholesResult,
    callPriceDiff: real,
    putPriceDiff: real)

  datatype PriceDifferences = PriceDifferences(
    callPriceDiff: real,
    putPriceDiff: real,
    callPriceDiffPercent: real,
    putPriceDiffPercent: real)

  datatype ComparisonResponse = ComparisonResponse(
    monteCarlo: MonteCarloResponse,
    blackScholes: BlackScholes.BlackScholesResult,
    differences: PriceDifferences)

  datatype ConvergenceRequest = ConvergenceRequest(
    spotPrice: real,
    strikePrice: real,
    timeToExpiry: real,
    riskFreeRate: real,
    volatility: real,
    maxSimulations: nat,
    stepSize: nat)

  datatype ConvergencePoint = ConvergencePoint(numSimulations: nat, callPrice: real, standardError: real)

  datatype ConvergenceResponse = ConvergenceResponse(
    convergenceData: seq<ConvergencePoint>,
    blackScholesReference: real,
    finalDifference: real)
}
