# QuantBox pricing core, modelled in Dafny

QuantBox is an options-analytics server (Rust) with a web client (TypeScript). This
project models its computational core and proves properties of it:

- **Analytic pricing** (`BlackScholes`). It covers:
  - the Zelen-Severo approximation of the normal CDF and the normal density;
  - d1 and d2;
  - call and put prices with their expiry and zero-volatility branches;
  - the five Greeks;
  - the 10 x 10 spot x volatility price heatmap, built by nested loops.
- **Client kernel** (`BlackScholesUtils`). The browser's copy of the CDF, density and
  d1/d2, shown equal to the server's.
- **Sequential Monte Carlo engine** (`MonteCarloEngine`). Geometric Brownian paths,
  payoff buffers, the discounted mean, the sample-variance standard error and the 95%
  interval, plus the comparison with the analytic prices.
- **Chunked Monte Carlo engine** (`ParallelMonteCarloEngine`). Paths are cut into
  chunks of 10 000. Each chunk keeps running sums of its discounted payoffs and their
  squares, and the chunk results are folded into a mean and a population variance.
- **Monte Carlo endpoints** (`MonteCarloHandlers`):
  - input validation;
  - the percent differences of the comparison endpoint;
  - the convergence sweep at `step, 2 step, ...` paths, with its final difference.
- **Market data**:
  - `MarketDataProvider`: turns Polygon responses into quotes, option contracts and
    daily bars;
  - `MarketDataService`: a per-symbol quote cache with a 300-second time to live, and
    the volatility surface built from a quote and an options chain.

Supporting modules:

- `RealMath` holds the mathematical library as a value `Libm(exp, ln, sqrt)`.
  `Lawful(m)` states the laws the proofs use:
  - `exp(x) > 0`;
  - `exp(x) <= 1` for `x <= 0`;
  - `sqrt(x) >= 0` and `sqrt(x)^2 == x` for `x >= 0`.
- `Sums` holds left-to-right sums, sums of squares and sums of squared deviations over
  `seq<real>`.
- `MonteCarloModels` and `MarketDataModels` hold the records, and `Wrappers` holds
  `Option` and `Result`.

Prices are exact reals. The random normal samples are an input sequence: `draws[i]` is
the sample of path `i`. The clock is a `now` parameter. The HTTP round trip is a
`PolygonApi` value of functions, and chrono's date services are a `Calendar` value.

## Model

| member | source | states |
|---|---|---|
| BlackScholes.HornerTail | server-quantbox/src/compute/black_scholes.rs:12 | The Zelen-Severo coefficients evaluated in nested form at `t` equal the polynomial the code writes out. |
| BlackScholes.TailFactors | server-quantbox/src/compute/black_scholes.rs:11-12 | `p = d * t * poly(t)` is `d` times the tail polynomial of `t`. |
| BlackScholes.NormalPdf | server-quantbox/src/compute/black_scholes.rs:5-7 | The standard normal density. `NormalPdfEvenPositive` proves it strictly positive and even. |
| BlackScholes.NormalTail | server-quantbox/src/compute/black_scholes.rs:10-12 | The approximated lower tail `p = d * t * poly(t)`, with the coefficients as a list evaluated in nested form. `NormalTailEven` proves it even in `x`, and `NormalTailBounds` proves `0 < p < 1/2`. |
| BlackScholes.NormalCdf | server-quantbox/src/compute/black_scholes.rs:9-18 | `1 - p` for positive `x`, else `p`. `NormalCdfSymmetric` proves the reflection `cdf(-x) == 1 - cdf(x)` for `x != 0`, and `NormalCdfBounds` proves it lies in (0, 1), above 1/2 exactly for `x > 0`. |
| BlackScholes.NormalTailEven | server-quantbox/src/compute/black_scholes.rs:10-12 | `p` is the same at `x` and `-x`: it depends only on `abs(x)` and `x * x`. |
| BlackScholes.NormalCdfSymmetric | server-quantbox/src/compute/black_scholes.rs:9-18 | For `x != 0`, `cdf(-x) == 1 - cdf(x)` exactly. |
| BlackScholes.NormalPdfEvenPositive | server-quantbox/src/compute/black_scholes.rs:5-7 | The density is strictly positive and even. |
| BlackScholes.TailPolynomialPositive | server-quantbox/src/compute/black_scholes.rs:12 | For every `t` in (0, 1] the tail polynomial is positive. |
| BlackScholes.TailPolynomialBounded | server-quantbox/src/compute/black_scholes.rs:12 | For every `t` in (0, 1] the tail polynomial is at most 1.2533137, its value at `t = 1`. |
| BlackScholes.NormalTailBounds | server-quantbox/src/compute/black_scholes.rs:10-12 | `0 < p < 1/2` for every `x`. |
| BlackScholes.NormalCdfBounds | server-quantbox/src/compute/black_scholes.rs:9-18 | The CDF lies strictly in (0, 1). It is above 1/2 exactly when `x > 0`, and it never equals 1/2. |
| BlackScholes.CalculateD1 | server-quantbox/src/compute/black_scholes.rs:20-22 | d1 of the inputs, defined for a non-zero strike and denominator. `D2BelowD1` proves that d1 exceeds d2 by `v sqrt(t)`. |
| BlackScholes.CalculateD2 | server-quantbox/src/compute/black_scholes.rs:24-26 | d1 shifted down by `v sqrt(t)`. `D2BelowD1` proves `d2 < d1` for positive `v` and `t`. |
| BlackScholes.CalculateCallPrice | server-quantbox/src/compute/black_scholes.rs:28-40 | The call price. `ExpiredPrices` and `ZeroVolatilityPrices` give its intrinsic values on the degenerate branches. `PutCallParity` proves call minus put is `s - k exp(-r t)` on the main branch. |
| BlackScholes.CalculatePutPrice | server-quantbox/src/compute/black_scholes.rs:42-54 | The put price, characterised by the same three lemmas as the call. |
| BlackScholes.DenominatorPositive | server-quantbox/src/compute/black_scholes.rs:21 | With `v > 0` and `t > 0`, `sqrt(t) > 0` and the d1 denominator `v * sqrt(t)` is positive. |
| BlackScholes.D2BelowD1 | server-quantbox/src/compute/black_scholes.rs:20-26 | `d1 - d2 == v * sqrt(t) > 0` when `v > 0` and `t > 0`, so `d2 < d1`. |
| BlackScholes.CalculateOptionsPrices | server-quantbox/src/compute/black_scholes.rs:56-61 | The pair holds the call and the put of the same inputs. On both degenerate branches, call minus put is the (discounted) forward gap. |
| BlackScholes.ExpiredPrices | server-quantbox/src/compute/black_scholes.rs:29-44 | With `t <= 0` the call is `max(s - k, 0)` and the put `max(k - s, 0)`. Both are non-negative and call minus put is `s - k`. |
| BlackScholes.ZeroVolatilityPrices | server-quantbox/src/compute/black_scholes.rs:32-47 | With `t > 0` and `v <= 0` the prices are the discounted intrinsic values. Both are non-negative and call minus put is `s - k exp(-r t)`. |
| BlackScholes.PutCallParity | server-quantbox/src/compute/black_scholes.rs:28-54 | On the main branch with `d1 != 0` and `d2 != 0`, call minus put is exactly `s - k exp(-r t)`. |
| BlackScholes.CalculateGreeks | server-quantbox/src/compute/black_scholes.rs:63-104 | The five Greeks of a call or a put. `DegenerateGreeks` proves they are 0 on the degenerate branches. `CallPutGreeks` and `GreeksSigns` give the relations between call and put and the signs on the main branch. |
| BlackScholes.DegenerateGreeks | server-quantbox/src/compute/black_scholes.rs:64-72 | With `t <= 0` or `v <= 0` all five Greeks are 0, for both option types. |
| BlackScholes.GreeksShared | server-quantbox/src/compute/black_scholes.rs:78-90 | Gamma and vega do not depend on the option type. The coded put delta is minus the call delta. |
| BlackScholes.CallPutGreeks | server-quantbox/src/compute/black_scholes.rs:78-95 | Call and put share gamma and vega, and put delta is minus call delta. Call rho minus put rho is `k t exp(-r t) / 100`. Call theta minus put theta is `-r k exp(-r t) / 365`. |
| BlackScholes.GreeksSigns | server-quantbox/src/compute/black_scholes.rs:74-90 | With a positive spot, gamma and vega are positive, the call delta lies in (0, 1) and the put delta in (-1, 0). |
| BlackScholes.PutDeltaGap | server-quantbox/src/compute/black_scholes.rs:79-80 | As written, call delta minus put delta is twice the call delta, and it is never 1. |
| BlackScholes.IntendedDelta | server-quantbox/src/compute/black_scholes.rs:78-81 | The textbook deltas: the call delta lies in (0, 1) and the put delta `N(d1) - 1` in (-1, 0). |
| BlackScholes.IntendedDeltaParity | server-quantbox/src/compute/black_scholes.rs:78-81 | The intended call delta is the coded one, and intended call delta minus intended put delta is exactly 1. |
| BlackScholes.GenerateHeatmapData | server-quantbox/src/compute/black_scholes.rs:106-156 | The heatmap has 10 spot labels and the 10 volatility labels of the axis. Row `i` carries spot level `i` and the call and put rows priced at that spot across the volatility axis. |
| BlackScholes.PriceHeatmapRow | server-quantbox/src/compute/black_scholes.rs:130-144 | One pass of the inner loop yields the call row and the put row at spot `s`, and the axis labels only when asked (the first row). |
| BlackScholes.CallRowCells | server-quantbox/src/compute/black_scholes.rs:133-142 | A call row has one cell per volatility level. Cell `j` is the formatted call price at `(s, v_j)` with the base strike, rate and time. |
| BlackScholes.PutRowCells | server-quantbox/src/compute/black_scholes.rs:133-143 | A put row has one cell per volatility level. Cell `j` is the formatted put price at `(s, v_j)`. |
| BlackScholes.AxisLabelsLevels | server-quantbox/src/compute/black_scholes.rs:133-137 | The volatility labels are the formatted levels `v_0 .. v_9`, in order. |
| BlackScholes.SpotAxisEnds | server-quantbox/src/compute/black_scholes.rs:110-115 | The spot axis runs from `0.6 s` to `1.4 s` in steps of `0.8 s / 9`. |
| BlackScholes.SpotAxisAscending | server-quantbox/src/compute/black_scholes.rs:126-127 | For a positive base spot the levels are positive and strictly ascending. |
| BlackScholes.VolAxisEnds | server-quantbox/src/compute/black_scholes.rs:117-119 | The volatility axis starts at `max(0.2 v, 0.05)`, which is at least 0.05, and ends at `1.8 v`. |
| BlackScholes.VolAxisPositive | server-quantbox/src/compute/black_scholes.rs:117-134 | For a positive base volatility every level is positive. |
| BlackScholes.VolAxisAscending | server-quantbox/src/compute/black_scholes.rs:117-134 | The volatility levels ascend strictly exactly when `1.8 v` exceeds the floor `max(0.2 v, 0.05)`. |
| BlackScholesUtils.NormalCDF | client-quantbox/src/lib/black-scholes-utils.ts:15-21 | The client CDF. `NormalCDFAgrees` proves it equal to the server's, and `NormalCDFSymmetricBounded` carries over its symmetry and bounds. |
| BlackScholesUtils.NormalPDF | client-quantbox/src/lib/black-scholes-utils.ts:29-31 | The client density. `NormalPDFAgrees` proves it equal to the server's, even and positive. |
| BlackScholesUtils.CalculateD1 | client-quantbox/src/lib/black-scholes-utils.ts:42-44 | The client d1. `D1D2Agree` proves it equal to the server's. |
| BlackScholesUtils.CalculateD2 | client-quantbox/src/lib/black-scholes-utils.ts:54-56 | The client d2. `D1D2Agree` proves it equal to the server's, and `v sqrt(T)` below d1. |
| BlackScholesUtils.NormalCDFAgrees | client-quantbox/src/lib/black-scholes-utils.ts:15-21 | The client CDF equals the server CDF at every `x`. |
| BlackScholesUtils.ClientTailAgrees | client-quantbox/src/lib/black-scholes-utils.ts:16-18 | The client's inline tail `p` equals the server's. |
| BlackScholesUtils.NormalCDFSymmetricBounded | client-quantbox/src/lib/black-scholes-utils.ts:15-21 | For `x != 0`, `normalCDF(-x) == 1 - normalCDF(x)`. Values lie in (0, 1), above 1/2 exactly for `x > 0`. |
| BlackScholesUtils.NormalPDFAgrees | client-quantbox/src/lib/black-scholes-utils.ts:29-31 | The client density equals the server density, and it is even and strictly positive. |
| BlackScholesUtils.D1D2Agree | client-quantbox/src/lib/black-scholes-utils.ts:42-56 | Client d1 and d2 equal the server's, and `d1 - d2 == v sqrt(T) > 0` for `v, T > 0`. |
| MonteCarloEngine.PayoffParity | server-quantbox/src/compute/monte_carlo_engine.rs:34-35 | On every path both payoffs are non-negative and at most one is positive. Call minus put is final price minus strike. |
| MonteCarloEngine.CallPayoffs | server-quantbox/src/compute/monte_carlo_engine.rs:25-37 | One call payoff per sample, entry `i` being the payoff of path `i`. |
| MonteCarloEngine.PutPayoffs | server-quantbox/src/compute/monte_carlo_engine.rs:25-38 | One put payoff per sample, entry `i` being the payoff of path `i`. |
| MonteCarloEngine.FinalPrices | server-quantbox/src/compute/monte_carlo_engine.rs:31 | One simulated final price per sample, in path order. |
| MonteCarloEngine.ConfidenceInterval95 | server-quantbox/src/compute/monte_carlo_engine.rs:58-62 | The interval is symmetric about the price with half-width `1.96 se`. It contains the price exactly when `se >= 0`. |
| MonteCarloEngine.DiscountedMean | server-quantbox/src/compute/monte_carlo_engine.rs:44-45 | A non-negative total with a positive discount factor gives a non-negative price. |
| MonteCarloEngine.DiscountedMeanTimesCount | server-quantbox/src/compute/monte_carlo_engine.rs:44-45 | The price times `n` is the discounted total. |
| MonteCarloEngine.SampleVariance | server-quantbox/src/compute/monte_carlo_engine.rs:48-53 | Non-negative squared deviations give a non-negative variance. |
| MonteCarloEngine.SampleVarianceTimesDegrees | server-quantbox/src/compute/monte_carlo_engine.rs:48-53 | The variance times `n - 1` is the sum of squared deviations. |
| MonteCarloEngine.StandardError | server-quantbox/src/compute/monte_carlo_engine.rs:55 | For a non-negative variance, `se >= 0` and `se^2 * n == variance`. |
| MonteCarloEngine.PriceEuropeanOption | server-quantbox/src/compute/monte_carlo_engine.rs:13-70 | The payoff loop and the reductions compute the sequential estimate of the samples. |
| MonteCarloEngine.CompareWithBlackScholes | server-quantbox/src/compute/monte_carlo_engine.rs:73-90 | The result holds the Monte Carlo estimate and the analytic prices of the same request. The gaps are their absolute differences: non-negative, and 0 exactly when the prices agree. |
| MonteCarloEngine.EstimateBounds | server-quantbox/src/compute/monte_carlo_engine.rs:42-62 | Both prices and the standard error are non-negative. The 95% interval is centred on the call price, which it contains. |
| MonteCarloEngine.DiscountFactorPositive | server-quantbox/src/compute/monte_carlo_engine.rs:42 | The discount factor `exp(-r t)` is positive. |
| MonteCarloEngine.PayoffSumsNonNegative | server-quantbox/src/compute/monte_carlo_engine.rs:44-45 | The summed call payoffs and put payoffs are non-negative. |
| MonteCarloEngine.EstimateIsDiscountedMean | server-quantbox/src/compute/monte_carlo_engine.rs:44-51 | Each price is the mean of the discounted payoffs, the centre the variance is taken about. |
| MonteCarloEngine.MeanOfScaled | server-quantbox/src/compute/monte_carlo_engine.rs:44-50 | Discounting the mean payoff equals averaging the discounted payoffs. |
| MonteCarloEngine.EstimateParity | server-quantbox/src/compute/monte_carlo_engine.rs:34-45 | For any samples, call estimate minus put estimate is the discounted mean final price minus the discounted strike. |
| ParallelMonteCarloEngine.NumChunks | server-quantbox/src/compute/parallel_monte_carlo_engine.rs:21 | `ceil(n / 10000)`. `NoChunks` proves it is 0 exactly for `n = 0`, and `ChunkLayout` proves its chunks cover `[0, n)`. |
| ParallelMonteCarloEngine.ChunkStart | server-quantbox/src/compute/parallel_monte_carlo_engine.rs:27 | The first path of a chunk. `ChunkLayout` proves the first chunk starts at 0 and each starts where the previous one ends. |
| ParallelMonteCarloEngine.ChunkEnd | server-quantbox/src/compute/parallel_monte_carlo_engine.rs:28-29 | The end of a chunk, capped at `n`. `ChunkLayout` proves every chunk is non-empty, at most 10 000 long, and the last ends at `n`. |
| ParallelMonteCarloEngine.ChunkLayout | server-quantbox/src/compute/parallel_monte_carlo_engine.rs:20-31 | The chunks tile `[0, n)`. Each is non-empty and at most 10 000 long, each ends where the next starts, and the last ends at `n`. |
| ParallelMonteCarloEngine.NoChunks | server-quantbox/src/compute/parallel_monte_carlo_engine.rs:21 | `ceil(n / 10000)` is 0 exactly when `n` is 0. |
| ParallelMonteCarloEngine.DiscountedCalls | server-quantbox/src/compute/parallel_monte_carlo_engine.rs:54-56 | One discounted call payoff per sample, in order. |
| ParallelMonteCarloEngine.DiscountedPuts | server-quantbox/src/compute/parallel_monte_carlo_engine.rs:54-57 | One discounted put payoff per sample, in order. |
| ParallelMonteCarloEngine.DiscountedAreScaled | server-quantbox/src/compute/parallel_monte_carlo_engine.rs:56-57 | Discounting inside the loop gives the sequential payoff vectors times the discount factor. |
| ParallelMonteCarloEngine.DiscountedSlice | server-quantbox/src/compute/parallel_monte_carlo_engine.rs:26-31 | A chunk's samples give that same slice of the discounted payoffs. |
| ParallelMonteCarloEngine.ProcessChunk | server-quantbox/src/compute/parallel_monte_carlo_engine.rs:38-72 | The count is the chunk size. The four sums are the sums of the chunk's discounted payoffs and of their squares. |
| ParallelMonteCarloEngine.ChunkSumsNonNegative | server-quantbox/src/compute/parallel_monte_carlo_engine.rs:52-63 | All four chunk sums are non-negative. |
| ParallelMonteCarloEngine.RunningSums | server-quantbox/src/compute/parallel_monte_carlo_engine.rs:59-62 | Each `+=` extends the running sum and the running sum of squares by one element. |
| ParallelMonteCarloEngine.Accumulate | server-quantbox/src/compute/parallel_monte_carlo_engine.rs:75-85 | The fold over the chunk results, leaving out the put sum of squares. `AccumulateSnoc` and `FoldChunk` prove that folding the chunks of `[0, n)` gives the totals over all paths. |
| ParallelMonteCarloEngine.AggregateChunkResults | server-quantbox/src/compute/parallel_monte_carlo_engine.rs:74-105 | The estimate from the folded totals. `PriceEuropeanOption` proves that on its chunk results it equals the one-pass estimate. `PooledEstimateBounds` and `StandardErrorsRelate` state that estimate's bounds and its relation to the sequential one. |
| ParallelMonteCarloEngine.AccumulateSnoc | server-quantbox/src/compute/parallel_monte_carlo_engine.rs:75-85 | Folding one more chunk adds its count and its sums to the accumulator. |
| ParallelMonteCarloEngine.PrefixTotalsExtend | server-quantbox/src/compute/parallel_monte_carlo_engine.rs:75-85 | Extending the covered prefix adds the slice's length and sums. |
| ParallelMonteCarloEngine.FoldChunk | server-quantbox/src/compute/parallel_monte_carlo_engine.rs:75-85 | Folding a chunk onto the totals of `[0, i)` gives the totals of `[0, j)`. |
| ParallelMonteCarloEngine.Mean | server-quantbox/src/compute/parallel_monte_carlo_engine.rs:87-88 | A non-negative sum has a non-negative mean. |
| ParallelMonteCarloEngine.MeanTimesCount | server-quantbox/src/compute/parallel_monte_carlo_engine.rs:87-88 | The mean times the count is the sum. |
| ParallelMonteCarloEngine.PriceEuropeanOption | server-quantbox/src/compute/parallel_monte_carlo_engine.rs:19-36 | Chunking and folding give exactly the one-pass estimate over all the samples. |
| ParallelMonteCarloEngine.PooledEstimateBounds | server-quantbox/src/compute/parallel_monte_carlo_engine.rs:87-97 | Both prices are non-negative, the population variance and standard error are non-negative, and the interval is centred on the call price, which it contains. |
| ParallelMonteCarloEngine.DiscountedNonNegative | server-quantbox/src/compute/parallel_monte_carlo_engine.rs:56-57 | Every discounted payoff is non-negative. |
| ParallelMonteCarloEngine.DiscountedPathNonNegative | server-quantbox/src/compute/parallel_monte_carlo_engine.rs:54-57 | On one path both discounted payoffs are non-negative. |
| ParallelMonteCarloEngine.PricesAgreeWithSequential | server-quantbox/src/compute/parallel_monte_carlo_engine.rs:87-88 | The chunked engine's call and put prices equal the sequential engine's on the same samples. |
| ParallelMonteCarloEngine.StandardErrorsRelate | server-quantbox/src/compute/parallel_monte_carlo_engine.rs:90-91 | The chunked and sequential standard errors satisfy `se_chunked^2 n == se_sequential^2 (n - 1)`. |
| ParallelMonteCarloEngine.MomentsOfValues | server-quantbox/src/compute/parallel_monte_carlo_engine.rs:90 | About their mean, values have a non-negative population variance and non-negative squared deviations, which expand as `ss - 2 c s + n c^2`. |
| ParallelMonteCarloEngine.VarianceEstimatorsRelate | server-quantbox/src/compute/parallel_monte_carlo_engine.rs:90-91 | From the same sums, the population-variance error and the sample-variance error are in the squared ratio `n : (n - 1)`. |
| ParallelMonteCarloEngine.ErrorsOfVariances | server-quantbox/src/compute/parallel_monte_carlo_engine.rs:91 | Variances in ratio `(n - 1) : n` give standard errors in squared ratio `n : (n - 1)`. |
| ParallelMonteCarloEngine.PopulationVarianceOfValues | server-quantbox/src/compute/parallel_monte_carlo_engine.rs:90 | `sum_sq / n - mean^2` is non-negative for any non-empty values. |
| Sums.SumAppend | server-quantbox/src/compute/parallel_monte_carlo_engine.rs:75-85 | The sum of a concatenation is the sum of the sums, which is why chunk sums fold to the total. |
| Sums.SumScale | server-quantbox/src/compute/monte_carlo_engine.rs:44-50 | Scaling every value by `c` scales the sum by `c`. |
| Sums.DeviationIdentity | server-quantbox/src/compute/monte_carlo_engine.rs:48-53 | `sum (x - c)^2 == sum x^2 - 2 c sum x + n c^2`. |
| Sums.SumSquaredDeviationsNonNegative | server-quantbox/src/compute/monte_carlo_engine.rs:48-53 | The squared deviations about any centre sum to a non-negative value. |
| Sums.PopulationVarianceNonNegative | server-quantbox/src/compute/parallel_monte_carlo_engine.rs:90 | `sum x^2 / n - (sum x / n)^2 >= 0` for every non-empty sequence. |
| MonteCarloHandlers.AsWrittenAcceptsOnePath | server-quantbox/src/api/monte_carlo_handlers.rs:21-25 | A one-path request passes the written validation, yet the sequential variance divisor `n - 1` is then 0. |
| MonteCarloHandlers.AsWrittenAcceptsNoPaths | server-quantbox/src/api/monte_carlo_handlers.rs:46-50 | A zero-path request passes the written validation, yet the chunked engine then has no chunks and a total count of 0. |
| MonteCarloHandlers.DefaultsAccepted | server-quantbox/src/models/convergence_request.rs:3-5 | The default path count and sweep step are at least 2, and the default sweep has 20 runs. |
| MonteCarloHandlers.Respond | server-quantbox/src/api/monte_carlo_handlers.rs:28-35 | The response copies the engine's prices, error and interval, and the requested path count. |
| MonteCarloHandlers.GetMonteCarloPrice | server-quantbox/src/api/monte_carlo_handlers.rs:15-38 | Bad request exactly when a spot, strike, time or volatility is not positive or there are fewer than 2 paths. The path-count check is the correction in Findings. Otherwise the response carries the sequential estimate. |
| MonteCarloHandlers.GetMonteCarloPriceParallel | server-quantbox/src/api/monte_carlo_handlers.rs:40-63 | Bad request exactly when a spot, strike, time or volatility is not positive or there are no paths. The path-count check is the correction in Findings. Otherwise the response carries the chunked estimate. |
| MonteCarloHandlers.PercentDifference | server-quantbox/src/api/monte_carlo_handlers.rs:93-98 | For a non-zero price, `pct * price == diff * 100`, and the result is 0 for a zero price. A non-negative gap over a positive price is non-negative. |
| MonteCarloHandlers.GetMonteCarloComparison | server-quantbox/src/api/monte_carlo_handlers.rs:65-103 | Bad request exactly when the inputs are not positive or there are fewer than 2 paths; the path-count check is the correction in Findings. Otherwise: the estimate, the analytic prices of the same request, and the absolute gaps with their percentages. |
| MonteCarloHandlers.AsWrittenAcceptsSmallSteps | server-quantbox/src/api/monte_carlo_handlers.rs:108-125 | Steps 0 and 1 pass the written validation. With step 1 the first run has a single path. |
| MonteCarloHandlers.RunParams | server-quantbox/src/api/monte_carlo_handlers.rs:128-135 | A sweep run copies spot, strike, time, rate and volatility from the request and sets the path count. |
| MonteCarloHandlers.SweepPoint | server-quantbox/src/api/monte_carlo_handlers.rs:137-145 | A point records the path count passed to the engine and that run's call price and standard error. |
| MonteCarloHandlers.FinalDifference | server-quantbox/src/api/monte_carlo_handlers.rs:148-152 | The value is 0 for an empty sweep. Otherwise it is the non-negative gap between the last call price and the reference, 0 exactly when they agree. |
| MonteCarloHandlers.GetConvergenceAnalysis | server-quantbox/src/api/monte_carlo_handlers.rs:105-161 | Bad request exactly when the inputs are not positive or the step is below 2. Otherwise the reference is the analytic call, there are `max / step` points with point `i` at `(i + 1) step` paths, and the final difference is taken against the reference. |
| MonteCarloHandlers.Sweep | server-quantbox/src/api/monte_carlo_handlers.rs:125-146 | The loop produces `max / step` points, point `i` being the run at `(i + 1) step` paths. |
| MonteCarloHandlers.RunPoint | server-quantbox/src/api/monte_carlo_handlers.rs:126-145 | One run prices with the sequential engine and reduces the result to a point. |
| MonteCarloHandlers.BelowMaxIffBelowQuotient | server-quantbox/src/api/monte_carlo_handlers.rs:125 | `k step <= max` exactly when `k <= max / step`, which is why there are `max / step` runs. |
| MonteCarloHandlers.SweepAtLeastStep | server-quantbox/src/api/monte_carlo_handlers.rs:125 | No run has fewer paths than the step. |
| MonteCarloHandlers.SweepNext | server-quantbox/src/api/monte_carlo_handlers.rs:125 | Each run has `step` more paths than the one before. |
| MonteCarloHandlers.SweepAscending | server-quantbox/src/api/monte_carlo_handlers.rs:125 | The path counts rise strictly with the run index. |
| MonteCarloHandlers.SweepVisitsMultiples | server-quantbox/src/api/monte_carlo_handlers.rs:125 | A count is visited exactly when it is a multiple of the step between `step` and `max`. |
| MarketDataModels.WholeSeconds | server-quantbox/src/models/market_data_models/market_data_provider.rs:122 | Milliseconds to whole seconds, rounded toward zero: `secs * 1000` is within one second of `ms` on the side of 0. |
| MarketDataModels.Truncate | server-quantbox/src/models/market_data_models/market_data_provider.rs:128 | A real rounded toward zero lies within 1 of it, on the side of 0. |
| MarketDataModels.SaturatingI64 | server-quantbox/src/models/market_data_models/market_data_provider.rs:128 | `f64 as i64` stays within the `i64` range and is the truncation whenever that fits. |
| MarketDataModels.WrapI32 | server-quantbox/src/services/market_data_service.rs:55 | `i64 as i32` lies in the `i32` range, keeps values that fit, and agrees with its input modulo 2^32. |
| MarketDataProvider.GetQuote | server-quantbox/src/models/market_data_models/market_data_provider.rs:27-44 | A request error passes through, and no result is `InvalidSymbol`. Otherwise: the asked symbol, the close or 0, no bid or ask, the saturated volume or 0, stamped `now`. |
| MarketDataProvider.QueryParams | server-quantbox/src/models/market_data_models/market_data_provider.rs:52-59 | The query is always `underlying_ticker` and `limit=1000`, plus `expiration_date` exactly when an expiry is given. |
| MarketDataProvider.ContractType | server-quantbox/src/models/market_data_models/market_data_provider.rs:67-71 | A contract is a call exactly for "call" and a put exactly for "put". Anything else is skipped. |
| MarketDataProvider.ToContract | server-quantbox/src/models/market_data_models/market_data_provider.rs:77-94 | One Polygon contract as a domain contract. `ChainIsTradableMapped` proves each converted contract is this mapping of the matching input. |
| MarketDataProvider.ConvertChain | server-quantbox/src/models/market_data_models/market_data_provider.rs:64-96 | The conversion of a page of contracts. `ChainIsTradableMapped` gives its success case and `ChainFailsAtFirstBadDate` its failure case. |
| MarketDataProvider.OptionsChain | server-quantbox/src/models/market_data_models/market_data_provider.rs:46-100 | The whole query: a request error passes through, no results is the empty chain, otherwise the conversion. `GetOptionsChain` proves its loop computes this. |
| MarketDataProvider.GetOptionsChain | server-quantbox/src/models/market_data_models/market_data_provider.rs:46-100 | The loop with `continue` and the early return computes the chain conversion of the response, and no results is the empty chain. |
| MarketDataProvider.ChainIsTradableMapped | server-quantbox/src/models/market_data_models/market_data_provider.rs:65-96 | A converted page has one contract per call or put of the input, in order, with its fields taken from that contract. |
| MarketDataProvider.ChainFailsAtFirstBadDate | server-quantbox/src/models/market_data_models/market_data_provider.rs:73-75 | A page fails exactly when some call or put has an unparseable expiry. The error is then the parse error of the first such contract. |
| MarketDataProvider.ToBar | server-quantbox/src/models/market_data_models/market_data_provider.rs:120-129 | One Polygon bar as a domain bar. `GetHistoricalData` states its fields: symbol, copied prices, saturated volume, and timestamp `ms / 1000` s or `now`. |
| MarketDataProvider.ToBars | server-quantbox/src/models/market_data_models/market_data_provider.rs:118-130 | One bar per Polygon bar, in order. |
| MarketDataProvider.GetHistoricalData | server-quantbox/src/models/market_data_models/market_data_provider.rs:102-133 | Request errors pass through, and no results is empty. Otherwise one bar per input bar in order, with the symbol, prices copied, the saturated volume, and the timestamp at `ms / 1000` seconds, rounded toward zero (`now` when the calendar cannot convert it). |
| MarketDataService.Fresh | server-quantbox/src/services/market_data_service.rs:28-29 | A cached quote younger than the time to live. `FreshIffYoungerThanTtl` proves this means younger than 300 000 ms. |
| MarketDataService.FreshIffYoungerThanTtl | server-quantbox/src/services/market_data_service.rs:29 | With the 300-second time to live, a cached quote is used exactly when it is younger than 300 000 ms. At exactly 300 s it is refetched. |
| MarketDataService.CachedQuote | server-quantbox/src/services/market_data_service.rs:28-35 | A fresh entry answers without the provider. Otherwise the provider's answer, success or error, is returned. |
| MarketDataService.CacheAfter | server-quantbox/src/services/market_data_service.rs:28-36 | A hit or a provider error leaves the cache unchanged. A fetched quote overwrites its symbol's entry with `(quote, now)`, and no other key changes. |
| MarketDataService.LookupKeepsKeys | server-quantbox/src/services/market_data_service.rs:23-38 | A lookup answers a quote of the asked symbol and keeps every entry keyed by its quote's symbol. |
| MarketDataService.RefetchWithinTtlHits | server-quantbox/src/services/market_data_service.rs:28-36 | After a fetch, any lookup made before 300 s have passed is a hit returning the same quote. |
| MarketDataService.PointOf | server-quantbox/src/services/market_data_service.rs:49-58 | A point copies strike, implied volatility and type. Its day count is the days to expiry, positive, whenever that fits 32 bits. |
| MarketDataService.SurfacePoints | server-quantbox/src/services/market_data_service.rs:47-61 | The filter never yields more points than contracts. |
| MarketDataService.SurfacePointsAppend | server-quantbox/src/services/market_data_service.rs:48-61 | The filter keeps chain order: the points of `a + b` are those of `a` followed by those of `b`. |
| MarketDataService.SurfacePointsSound | server-quantbox/src/services/market_data_service.rs:48-61 | Every point comes from a contract that has an implied volatility and expires after today. |
| MarketDataService.SurfacePointsComplete | server-quantbox/src/services/market_data_service.rs:48-61 | Every contract with an implied volatility that expires after today gives its point. |
| MarketDataService.Surface | server-quantbox/src/services/market_data_service.rs:40-71 | The surface of the quote and the chain. `SurfaceFails` and `SurfaceShape` characterise its failures and its fields. |
| MarketDataService.SurfaceFails | server-quantbox/src/services/market_data_service.rs:44-45 | The surface fails exactly when the quote lookup or the chain query fails. The quote's error takes precedence, as the order of the two `?` gives. |
| MarketDataService.SurfaceShape | server-quantbox/src/services/market_data_service.rs:63-70 | A surface carries the asked symbol, the quoted spot price, rate 0.05, yield 0 and the date `now`. Its points are no more than the contracts of its chain, and each is the point of a chain contract on the surface. |
| MarketDataService.MarketDataService.constructor | server-quantbox/src/services/market_data_service.rs:15-21 | A new service has an empty cache and a 300-second time to live. |
| MarketDataService.MarketDataService.GetQuoteCached | server-quantbox/src/services/market_data_service.rs:23-38 | The method returns the cached lookup's answer, leaves the cache as `CacheAfter` describes, and keeps entries keyed by symbol. |
| MarketDataService.MarketDataService.BuildVolatilitySurface | server-quantbox/src/services/market_data_service.rs:40-71 | The filter loop builds the surface of the cached quote and the whole chain, and the cache is updated by the quote lookup alone. |

## Left out

- Floating point. All arithmetic is on exact reals. f64 rounding, NaN and infinities are not modelled, so no result holds bit for bit.
- `exp`, `ln` and `sqrt` are not computed. They are the `Libm` parameter, and `Lawful` lists the only laws the proofs use.
- BlackScholes.CalculateCallPrice, BlackScholes.CalculatePutPrice: on the main branch they require a non-zero strike, because `s / k` has no real value at `k = 0`. f64 would give an infinity there.
- BlackScholes.GenerateHeatmapData inherits that requirement: with `t > 0` the base strike must be non-zero, because every column with a positive volatility divides by it.
- BlackScholes.CalculateOptionsPrices inherits the same non-zero strike requirement on the main branch.
- BlackScholes.CalculateGreeks also requires a non-zero spot on the main branch, because gamma divides by `s`.
- BlackScholes.PutCallParity: the statement excludes `d1 = 0` and `d2 = 0`. At 0 the approximation returns `p(0)` on both sides, and `cdf(0) + cdf(-0) = 2 p(0)` is slightly below 1.
- The accuracy of the CDF approximation, and every statistical claim (convergence toward the analytic price, shrinking error), are not modelled. They do not hold for arbitrary samples.
- Randomness is not modelled. `ThreadRng` and `Normal::sample` are replaced by the input `draws`; the convergence endpoint takes a function from a path count to that run's samples.
- The rayon thread pool is not modelled. The chunks are processed one after another, which gives the same sums over exact reals.
- MonteCarloEngine.PriceEuropeanOption requires at least 2 paths, and ParallelMonteCarloEngine.PriceEuropeanOption at least 1. Below that the server divides by zero or underflows (see Findings).
- MonteCarloEngine.CompareWithBlackScholes inherits both restrictions: at least 2 paths, and a non-zero strike on the main branch.
- Path counts are `nat`. `usize` overflow in `(n + 10000 - 1)` or `(idx + 1) * 10000` is not modelled.
- The `{:.2}` formatting of heatmap labels and cells is not modelled. The formatter is the parameter `format`.
- Wall-clock timing is not modelled: `Instant::now`, `computation_time_ms` and `time_ms` are left out of the responses.
- The console logging of the handlers is not modelled.
- The axum `Json` and `StatusCode` wrappers are not modelled. A rejection is `Err(BadRequest)`.
- The clock is not modelled. Each operation takes one `now` that stands for every clock reading in it. The surface's "today" is `calendar.dateOf(now)`.
- Chrono's parsing, formatting and timestamp conversion are the `Calendar` parameter, so their exact text formats and error messages are not modelled.
- The HTTP client (`make_request`) is the `PolygonApi` parameter. The historical query is keyed by symbol and the two dates, so the endpoint text is not modelled.
- MarketDataProvider.GetHistoricalData describes the request and the mapping of lines 115-131 as if the endpoint text could be built. As written, market_data_provider.rs:112 formats the `to` date with `%H:%M:%S`. A date has no time of day, so chrono's formatter fails and `format!` panics before any request is made. The evident intent is `%Y-%m-%d`.
- Only the Polygon implementation of the provider interface is modelled, which is the one the service can hold.
- The client functions `calculateCallPrice`, `calculatePutPrice`, `calculateGreeks` and `generateHeatmapData` do not exist in black-scholes-utils.ts (line 58 is a TODO), so they are not part of this model.
- The analytic-pricing HTTP handlers are not part of this model. `generate_heatmap_data` is modelled by its own parameter order `(base_s, base_k, base_v, r, t)`.

## Findings

| source | as written | input that shows it | evidently intended | confidence | as-written member | corrected member |
|---|---|---|---|---|---|---|
| server-quantbox/src/compute/black_scholes.rs:80 | The put delta is `cdf(-d1) - 1`, which is minus the call delta. | Any main-branch input, e.g. `s = k = 100, r = 0.05, v = 0.2, t = 1`: call delta minus put delta is `2 * call delta`, never 1. | The put delta is `N(d1) - 1 = -cdf(-d1)`, so call delta minus put delta is 1. | high, not executed | BlackScholes.PutDeltaGap | BlackScholes.IntendedDeltaParity |
| server-quantbox/src/api/monte_carlo_handlers.rs:21-25 | The sequential endpoint checks the four inputs but not the path count. | `num_simulations = 1` passes; the sample variance then divides by `n - 1 = 0`. `num_simulations = 0` underflows `n - 1`. | Requests with fewer than 2 paths are rejected. | high, not executed | MonteCarloHandlers.AsWrittenAcceptsOnePath | MonteCarloHandlers.GetMonteCarloPrice |
| server-quantbox/src/api/monte_carlo_handlers.rs:70-74 | The comparison endpoint checks the four inputs but not the path count, then runs the sequential engine. | `num_simulations = 1` passes; the sample variance at monte_carlo_engine.rs:53 then divides by `n - 1 = 0`. | Requests with fewer than 2 paths are rejected. | high, not executed | MonteCarloHandlers.AsWrittenAcceptsOnePath | MonteCarloHandlers.GetMonteCarloComparison |
| server-quantbox/src/api/monte_carlo_handlers.rs:46-50 | The chunked endpoint checks the four inputs but not the path count. | `num_simulations = 0` passes; there are no chunks and the fold divides by a total count of 0. | Requests with no paths are rejected. | high, not executed | MonteCarloHandlers.AsWrittenAcceptsNoPaths | MonteCarloHandlers.GetMonteCarloPriceParallel |
| server-quantbox/src/api/monte_carlo_handlers.rs:108-125 | The convergence endpoint does not check `step_size`. | `step_size = 0` passes, and `step_by(0)` panics. `step_size = 1` passes, and its first run has one path, whose variance divides by 0. | Steps below 2 are rejected. | high, not executed | MonteCarloHandlers.AsWrittenAcceptsSmallSteps | MonteCarloHandlers.GetConvergenceAnalysis |
