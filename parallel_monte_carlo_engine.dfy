/**
 * The chunked Monte Carlo pricer. The paths are cut into chunks of `CHUNK_SIZE`; each
 * chunk keeps running sums of the discounted payoffs and of their squares, and the chunk
 * sums are folded into a mean and a population variance. The chunks run on a thread pool
 * in the server; here they run one after another, which gives the same sums in exact
 * arithmetic. The samples are one input sequence: chunk `c` uses `draws[ChunkStart(c)..ChunkEnd(c, n)]`.
 */
module ParallelMonteCarloEngine {
  import opened RealMath
  import opened Sums
  import opened MonteCarloModels
  import MonteCarloEngine

  /** Paths per chunk. */
  const CHUNK_SIZE: nat := 10000

  /** The running sums of one chunk. */
  datatype ChunkResult = ChunkResult(
    callSum: real,
    putSum: real,
    callSumSquared: real,
    putSumSquared: real,
    count: nat)

  // ---------------------------------------------------------------------------
  // Chunk layout
  // ---------------------------------------------------------------------------

  /** `ceil(n / CHUNK_SIZE)`. */
  function NumChunks(n: nat): nat {
    (n + CHUNK_SIZE - 1) / CHUNK_SIZE
  }

  function ChunkStart(idx: nat): nat {
    idx * CHUNK_SIZE
  }

  /** The end of chunk `idx`: a full chunk later, or `n` for the last one. */
  function ChunkEnd(idx: nat, n: nat): nat {
    if (idx + 1) * CHUNK_SIZE < n then (idx + 1) * CHUNK_SIZE else n
  }

  /**
   * The chunks tile `[0, n)`: every chunk is non-empty and at most `CHUNK_SIZE` long,
   * the first starts at 0, each ends where the next starts, and the last ends at `n`.
   */
  lemma ChunkLayout(n: nat, idx: nat)
    requires idx < NumChunks(n)
    ensures ChunkStart(0) == 0
    ensures ChunkStart(idx) < ChunkEnd(idx, n) <= n
    ensures ChunkEnd(idx, n) - ChunkStart(idx) <= CHUNK_SIZE
    ensures idx + 1 < NumChunks(n) ==> ChunkEnd(idx, n) == ChunkStart(idx + 1)
    ensures idx + 1 == NumChunks(n) ==> ChunkEnd(idx, n) == n
  {
    var c := NumChunks(n);
    assert c * CHUNK_SIZE >= n && (c - 1) * CHUNK_SIZE < n;
    assert idx * CHUNK_SIZE <= (c - 1) * CHUNK_SIZE;
    if idx + 1 < c {
      assert (idx + 1) * CHUNK_SIZE <= (c - 1) * CHUNK_SIZE;
    } else {
      assert (idx + 1) * CHUNK_SIZE >= n;
    }
  }

  /** There are no chunks exactly when there are no paths. */
  lemma NoChunks(n: nat)
    ensures NumChunks(n) == 0 <==> n == 0
  {
  }

  // ---------------------------------------------------------------------------
  // One chunk
  // ---------------------------------------------------------------------------

  /** A payoff discounted to today. */
  function Discount(payoff: real, discountFactor: real): real {
    payoff * discountFactor
  }

  /** The discounted call payoffs of the samples `zs`. */
  function DiscountedCalls(m: Libm, p: MonteCarloRequest, zs: seq<real>): (xs: seq<real>)
    ensures |xs| == |zs|
    ensures forall i :: 0 <= i < |zs| ==> xs[i] == Discount(MonteCarloEngine.CallPayoff(m, p, zs[i]), MonteCarloEngine.DiscountFactor(m, p))
  {
    seq(|zs|, i requires 0 <= i < |zs| => Discount(MonteCarloEngine.CallPayoff(m, p, zs[i]), MonteCarloEngine.DiscountFactor(m, p)))
  }

  /** The discounted put payoffs of the samples `zs`. */
  function DiscountedPuts(m: Libm, p: MonteCarloRequest, zs: seq<real>): (xs: seq<real>)
    ensures |xs| == |zs|
    ensures forall i :: 0 <= i < |zs| ==> xs[i] == Discount(MonteCarloEngine.PutPayoff(m, p, zs[i]), MonteCarloEngine.DiscountFactor(m, p))
  {
    seq(|zs|, i requires 0 <= i < |zs| => Discount(MonteCarloEngine.PutPayoff(m, p, zs[i]), MonteCarloEngine.DiscountFactor(m, p)))
  }

  /** The discounted payoffs are the sequential engine's payoff vectors scaled by the discount factor. */
  lemma DiscountedAreScaled(m: Libm, p: MonteCarloRequest, zs: seq<real>)
    ensures DiscountedCalls(m, p, zs) == Scale(MonteCarloEngine.CallPayoffs(m, p, zs), MonteCarloEngine.DiscountFactor(m, p))
    ensures DiscountedPuts(m, p, zs) == Scale(MonteCarloEngine.PutPayoffs(m, p, zs), MonteCarloEngine.DiscountFactor(m, p))
  {
    var df := MonteCarloEngine.DiscountFactor(m, p);
    var calls := MonteCarloEngine.CallPayoffs(m, p, zs);
    var puts := MonteCarloEngine.PutPayoffs(m, p, zs);
    forall i | 0 <= i < |zs|
      ensures DiscountedCalls(m, p, zs)[i] == Scale(calls, df)[i]
      ensures DiscountedPuts(m, p, zs)[i] == Scale(puts, df)[i]
    {
      assert Discount(calls[i], df) == calls[i] * df;
      assert Discount(puts[i], df) == puts[i] * df;
    }
  }

  /** Taking a slice of the samples takes the same slice of their discounted payoffs. */
  lemma DiscountedSlice(m: Libm, p: MonteCarloRequest, draws: seq<real>, i: nat, j: nat)
    requires i <= j <= |draws|
    ensures DiscountedCalls(m, p, draws[i..j]) == DiscountedCalls(m, p, draws)[i..j]
    ensures DiscountedPuts(m, p, draws[i..j]) == DiscountedPuts(m, p, draws)[i..j]
  {
  }

  /**
   * Simulates the paths of one chunk from the samples `zs`: the chunk's four sums are
   * the sums of the discounted payoffs and of their squares, over exactly `|zs|` paths.
   */
  method ProcessChunk(m: Libm, params: MonteCarloRequest, zs: seq<real>) returns (r: ChunkResult)
    ensures r.count == |zs|
    ensures r.callSum == Sum(DiscountedCalls(m, params, zs))
    ensures r.putSum == Sum(DiscountedPuts(m, params, zs))
    ensures r.callSumSquared == SumSquares(DiscountedCalls(m, params, zs))
    ensures r.putSumSquared == SumSquares(DiscountedPuts(m, params, zs))
  {
    var callSum := 0.0;
    var putSum := 0.0;
    var callSumSquared := 0.0;
    var putSumSquared := 0.0;

    var drift := MonteCarloEngine.Drift(params);
    var diffusion := MonteCarloEngine.Diffusion(m, params);
    var discountFactor := MonteCarloEngine.DiscountFactor(m, params);
    ghost var calls := DiscountedCalls(m, params, zs);
    ghost var puts := DiscountedPuts(m, params, zs);

    for i := 0 to |zs|
      invariant callSum == Sum(calls[..i]) && callSumSquared == SumSquares(calls[..i])
      invariant putSum == Sum(puts[..i]) && putSumSquared == SumSquares(puts[..i])
    {
      var z := zs[i];
      var finalPrice := MonteCarloEngine.GbmStep(m, params.spotPrice, drift, diffusion, z);
      var callPayoff := Discount(Max(finalPrice - params.strikePrice, 0.0), discountFactor);
      var putPayoff := Discount(Max(params.strikePrice - finalPrice, 0.0), discountFactor);
      assert callPayoff == calls[i] && putPayoff == puts[i];
      RunningSums(calls, i, callSum, callSumSquared, callPayoff);
      RunningSums(puts, i, putSum, putSumSquared, putPayoff);
      callSum := callSum + callPayoff;
      putSum := putSum + putPayoff;
      callSumSquared := callSumSquared + callPayoff * callPayoff;
      putSumSquared := putSumSquared + putPayoff * putPayoff;
    }
    assert calls[..|zs|] == calls && puts[..|zs|] == puts;
    r := ChunkResult(callSum, putSum, callSumSquared, putSumSquared, |zs|);
  }

  /** The four sums a chunk reports are non-negative, whatever its samples. */
  lemma ChunkSumsNonNegative(m: Libm, p: MonteCarloRequest, zs: seq<real>)
    requires Lawful(m)
    ensures Sum(DiscountedCalls(m, p, zs)) >= 0.0 && Sum(DiscountedPuts(m, p, zs)) >= 0.0
    ensures SumSquares(DiscountedCalls(m, p, zs)) >= 0.0 && SumSquares(DiscountedPuts(m, p, zs)) >= 0.0
  {
    DiscountedNonNegative(m, p, zs);
    SumNonNegative(DiscountedCalls(m, p, zs));
    SumNonNegative(DiscountedPuts(m, p, zs));
    SumSquaresNonNegative(DiscountedCalls(m, p, zs));
    SumSquaresNonNegative(DiscountedPuts(m, p, zs));
  }

  /** One more element extends the running sum and the running sum of squares. */
  lemma RunningSums(xs: seq<real>, i: nat, sum: real, sumSquares: real, x: real)
    requires i < |xs| && x == xs[i]
    requires sum == Sum(xs[..i]) && sumSquares == SumSquares(xs[..i])
    ensures sum + x == Sum(xs[..i + 1]) && sumSquares + x * x == SumSquares(xs[..i + 1])
  {
    SumPrefix(xs, i);
  }

  // ---------------------------------------------------------------------------
  // Aggregation
  // ---------------------------------------------------------------------------

  /** The fold over the chunk results: total count, call sum, put sum and call sum of squares. */
  function Accumulate(results: seq<ChunkResult>): (nat, real, real, real)
    decreases |results|
  {
    if |results| == 0 then (0, 0.0, 0.0, 0.0)
    else
      var acc := Accumulate(results[..|results| - 1]);
      var r := results[|results| - 1];
      (acc.0 + r.count, acc.1 + r.callSum, acc.2 + r.putSum, acc.3 + r.callSumSquared)
  }

  /** The folded sums the first `k` discounted payoffs give. */
  function PrefixTotals(calls: seq<real>, puts: seq<real>, k: nat): (nat, real, real, real)
    requires k <= |calls| && k <= |puts|
  {
    (k, Sum(calls[..k]), Sum(puts[..k]), SumSquares(calls[..k]))
  }

  /** Folding one more chunk result onto the accumulator adds its sums. */
  lemma AccumulateSnoc(results: seq<ChunkResult>, r: ChunkResult)
    ensures var acc := Accumulate(results);
            Accumulate(results + [r]) == (acc.0 + r.count, acc.1 + r.callSum, acc.2 + r.putSum, acc.3 + r.callSumSquared)
  {
    assert (results + [r])[..|results|] == results;
  }

  /** Extending a prefix from `i` to `j` adds the sums over the slice `[i, j)`. */
  lemma PrefixTotalsExtend(calls: seq<real>, puts: seq<real>, i: nat, j: nat)
    requires i <= j <= |calls| && j <= |puts|
    ensures var t := PrefixTotals(calls, puts, i);
            PrefixTotals(calls, puts, j)
            == (t.0 + (j - i), t.1 + Sum(calls[i..j]), t.2 + Sum(puts[i..j]), t.3 + SumSquares(calls[i..j]))
  {
    assert calls[..i] + calls[i..j] == calls[..j];
    assert puts[..i] + puts[i..j] == puts[..j];
    SumAppend(calls[..i], calls[i..j]);
    SumAppend(puts[..i], puts[i..j]);
  }

  /** Folding the result of the chunk `[i, j)` onto the totals of `[0, i)` gives the totals of `[0, j)`. */
  lemma FoldChunk(results: seq<ChunkResult>, chunk: ChunkResult, calls: seq<real>, puts: seq<real>, i: nat, j: nat)
    requires i <= j <= |calls| && j <= |puts|
    requires Accumulate(results) == PrefixTotals(calls, puts, i)
    requires chunk.count == j - i
    requires chunk.callSum == Sum(calls[i..j]) && chunk.putSum == Sum(puts[i..j])
    requires chunk.callSumSquared == SumSquares(calls[i..j])
    ensures Accumulate(results + [chunk]) == PrefixTotals(calls, puts, j)
  {
    AccumulateSnoc(results, chunk);
    PrefixTotalsExtend(calls, puts, i, j);
  }

  /** `total / n`. */
  function Mean(total: real, n: nat): (mean: real)
    requires n > 0
    ensures total >= 0.0 ==> mean >= 0.0
  {
    total / n as real
  }

  /** The mean times the count gives back the total. */
  lemma MeanTimesCount(total: real, n: nat)
    requires n > 0
    ensures Mean(total, n) * n as real == total
  {
  }

  /** The population variance `E[x^2] - E[x]^2`, from the sum of squares and the mean. */
  function PopulationVariance(sumSquares: real, mean: real, n: nat): real
    requires n > 0
  {
    sumSquares / n as real - mean * mean
  }

  /**
   * The estimate from the folded sums: mean discounted payoffs, the population variance
   * of the discounted call payoffs, its standard error and the 95% interval.
   */
  function Estimate(m: Libm, count: nat, callSum: real, putSum: real, callSumSquared: real): MonteCarloResult
    requires count > 0
  {
    var callPrice := Mean(callSum, count);
    var putPrice := Mean(putSum, count);
    var variance := PopulationVariance(callSumSquared, callPrice, count);
    var standardError := MonteCarloEngine.StandardError(m, variance, count);
    MonteCarloResult(callPrice, putPrice, standardError, MonteCarloEngine.ConfidenceInterval95(callPrice, standardError))
  }

  /** Folds the chunk results into the estimate; with no paths at all the server's division is 0/0. */
  function AggregateChunkResults(m: Libm, results: seq<ChunkResult>): MonteCarloResult
    requires Accumulate(results).0 > 0
  {
    var totals := Accumulate(results);
    Estimate(m, totals.0, totals.1, totals.2, totals.3)
  }

  /** The same estimate computed in one pass over all the samples, with no chunks. */
  function PooledEstimate(m: Libm, p: MonteCarloRequest, draws: seq<real>): MonteCarloResult
    requires |draws| > 0
  {
    var calls := DiscountedCalls(m, p, draws);
    Estimate(m, |draws|, Sum(calls), Sum(DiscountedPuts(m, p, draws)), SumSquares(calls))
  }

  // ---------------------------------------------------------------------------
  // The engine
  // ---------------------------------------------------------------------------

  /**
   * Prices a European call and put from `numSimulations` paths split into chunks. The
   * result is the one-pass estimate over all the samples: chunking changes nothing.
   */
  method PriceEuropeanOption(m: Libm, params: MonteCarloRequest, draws: seq<real>) returns (result: MonteCarloResult)
    requires params.numSimulations >= 1 && |draws| == params.numSimulations
    ensures result == PooledEstimate(m, params, draws)
  {
    var n := params.numSimulations;
    var numChunks := NumChunks(n);
    ghost var calls := DiscountedCalls(m, params, draws);
    ghost var puts := DiscountedPuts(m, params, draws);

    var results: seq<ChunkResult> := [];
    ghost var done: nat := 0;
    for chunkIdx := 0 to numChunks
      invariant done == (if chunkIdx == 0 then 0 else ChunkEnd(chunkIdx - 1, n))
      invariant done <= n
      invariant chunkIdx < numChunks ==> done == ChunkStart(chunkIdx)
      invariant Accumulate(results) == PrefixTotals(calls, puts, done)
      invariant |results| == chunkIdx
    {
      ChunkLayout(n, chunkIdx);
      var startSim := ChunkStart(chunkIdx);
      var endSim := ChunkEnd(chunkIdx, n);
      var chunk := ProcessChunk(m, params, draws[startSim..endSim]);
      DiscountedSlice(m, params, draws, startSim, endSim);
      FoldChunk(results, chunk, calls, puts, startSim, endSim);
      results := results + [chunk];
      done := endSim;
    }
    ChunkLayout(n, numChunks - 1);
    assert calls[..n] == calls && puts[..n] == puts;
    result := AggregateChunkResults(m, results);
  }

  // ---------------------------------------------------------------------------
  // Properties of the estimate
  // ---------------------------------------------------------------------------

  /**
   * Both prices are non-negative; the population variance is never negative, so the
   * standard error is a real square root and non-negative; and the 95% interval is
   * centred on the call price, which it contains.
   */
  lemma PooledEstimateBounds(m: Libm, p: MonteCarloRequest, draws: seq<real>)
    requires Lawful(m) && |draws| > 0
    ensures var r := PooledEstimate(m, p, draws);
            && r.callPrice >= 0.0 && r.putPrice >= 0.0 && r.standardError >= 0.0
            && r.confidenceInterval95.0 <= r.callPrice <= r.confidenceInterval95.1
            && r.confidenceInterval95.1 - r.callPrice == r.callPrice - r.confidenceInterval95.0 == 1.96 * r.standardError
  {
    var calls := DiscountedCalls(m, p, draws);
    var puts := DiscountedPuts(m, p, draws);
    var r := PooledEstimate(m, p, draws);
    var variance := PopulationVariance(SumSquares(calls), r.callPrice, |draws|);
    assert r.callPrice == Mean(Sum(calls), |draws|) && r.putPrice == Mean(Sum(puts), |draws|);
    assert r.standardError == MonteCarloEngine.StandardError(m, variance, |draws|);
    assert r.confidenceInterval95 == MonteCarloEngine.ConfidenceInterval95(r.callPrice, r.standardError);
    assert Sum(calls) >= 0.0 && Sum(puts) >= 0.0 by {
      DiscountedNonNegative(m, p, draws);
      SumNonNegative(calls);
      SumNonNegative(puts);
    }
    assert variance >= 0.0 by {
      assert |calls| == |draws|;
      PopulationVarianceOfValues(calls);
    }
  }

  /** Every discounted payoff is non-negative. */
  lemma DiscountedNonNegative(m: Libm, p: MonteCarloRequest, zs: seq<real>)
    requires Lawful(m)
    ensures forall i :: 0 <= i < |zs| ==> DiscountedCalls(m, p, zs)[i] >= 0.0 && DiscountedPuts(m, p, zs)[i] >= 0.0
  {
    forall i | 0 <= i < |zs|
      ensures DiscountedCalls(m, p, zs)[i] >= 0.0 && DiscountedPuts(m, p, zs)[i] >= 0.0
    {
      DiscountedPathNonNegative(m, p, zs[i]);
    }
  }

  /** On one path, both discounted payoffs are non-negative. */
  lemma DiscountedPathNonNegative(m: Libm, p: MonteCarloRequest, z: real)
    requires Lawful(m)
    ensures Discount(MonteCarloEngine.CallPayoff(m, p, z), MonteCarloEngine.DiscountFactor(m, p)) >= 0.0
    ensures Discount(MonteCarloEngine.PutPayoff(m, p, z), MonteCarloEngine.DiscountFactor(m, p)) >= 0.0
  {
    var df := MonteCarloEngine.DiscountFactor(m, p);
    MonteCarloEngine.DiscountFactorPositive(m, p);
    MonteCarloEngine.PayoffParity(m, p, z);
    ProductNonNegative(MonteCarloEngine.CallPayoff(m, p, z), df);
    ProductNonNegative(MonteCarloEngine.PutPayoff(m, p, z), df);
  }

  lemma ProductNonNegative(x: real, y: real)
    requires x >= 0.0 && y > 0.0
    ensures Discount(x, y) >= 0.0
  {
  }

  /** The chunked engine and the sequential engine give the same call and put prices. */
  lemma PricesAgreeWithSequential(m: Libm, p: MonteCarloRequest, draws: seq<real>)
    requires p.numSimulations >= 2 && |draws| == p.numSimulations
    ensures PooledEstimate(m, p, draws).callPrice == MonteCarloEngine.SequentialEstimate(m, p, draws).callPrice
    ensures PooledEstimate(m, p, draws).putPrice == MonteCarloEngine.SequentialEstimate(m, p, draws).putPrice
  {
    DiscountedAreScaled(m, p, draws);
    MonteCarloEngine.EstimateIsDiscountedMean(m, p, draws);
  }

  /**
   * The engines differ only in the variance: the chunked one divides the squared
   * deviations by `n`, the sequential one by `n - 1`. So `se_chunked^2 * n` equals
   * `se_sequential^2 * (n - 1)`: the chunked standard error is the smaller.
   */
  lemma StandardErrorsRelate(m: Libm, p: MonteCarloRequest, draws: seq<real>)
    requires Lawful(m) && p.numSimulations >= 2 && |draws| == p.numSimulations
    ensures var chunked := PooledEstimate(m, p, draws);
            var sequential := MonteCarloEngine.SequentialEstimate(m, p, draws);
            SquaredRatio(chunked.standardError, sequential.standardError, p.numSimulations)
  {
    var n := p.numSimulations;
    var calls := DiscountedCalls(m, p, draws);
    assert |calls| == n;
    var sum := Sum(calls);
    var sumSquares := SumSquares(calls);
    var c := Mean(sum, n);
    var squaredDeviations := SumSquaredDeviations(calls, c);
    var chunkedError := PooledEstimate(m, p, draws).standardError;
    var sequentialError := MonteCarloEngine.SequentialEstimate(m, p, draws).standardError;
    assert chunkedError == MonteCarloEngine.StandardError(m, PopulationVariance(sumSquares, c, n), n);
    assert sequentialError
           == MonteCarloEngine.StandardError(m, MonteCarloEngine.SampleVariance(squaredDeviations, n), n) by {
      PricesAgreeWithSequential(m, p, draws);
      DiscountedAreScaled(m, p, draws);
    }
    MomentsOfValues(calls, n);
    VarianceEstimatorsRelate(m, sumSquares, sum, squaredDeviations, n);
  }

  /** `a^2 n == b^2 (n - 1)`. */
  predicate SquaredRatio(a: real, b: real, n: nat) {
    a * a * n as real == b * b * (n - 1) as real
  }

  /** The facts about `n >= 2` values the variance comparison needs, about their mean `c`. */
  lemma MomentsOfValues(xs: seq<real>, n: nat)
    requires |xs| == n >= 2
    ensures var c := Mean(Sum(xs), n);
            && PopulationVariance(SumSquares(xs), c, n) >= 0.0
            && SumSquaredDeviations(xs, c) >= 0.0
            && SumSquaredDeviations(xs, c) == SumSquares(xs) - 2.0 * c * Sum(xs) + n as real * c * c
  {
    var c := Mean(Sum(xs), n);
    PopulationVarianceOfValues(xs);
    SumSquaredDeviationsNonNegative(xs, c);
    DeviationIdentity(xs, c);
  }

  /**
   * For `n >= 2` values with sum `s`, sum of squares `ss` and sum of squared deviations
   * `ssd` about their mean, the standard error from the population variance and the one
   * from the sample variance satisfy `a^2 n == b^2 (n - 1)`.
   */
  lemma VarianceEstimatorsRelate(m: Libm, ss: real, s: real, ssd: real, n: nat)
    requires Lawful(m) && n >= 2
    requires PopulationVariance(ss, Mean(s, n), n) >= 0.0 && ssd >= 0.0
    requires ssd == ss - 2.0 * Mean(s, n) * s + n as real * Mean(s, n) * Mean(s, n)
    ensures var c := Mean(s, n);
            var a := MonteCarloEngine.StandardError(m, PopulationVariance(ss, c, n), n);
            var b := MonteCarloEngine.StandardError(m, MonteCarloEngine.SampleVariance(ssd, n), n);
            SquaredRatio(a, b, n)
  {
    var c := Mean(s, n);
    var populationVariance := PopulationVariance(ss, c, n);
    var sampleVariance := MonteCarloEngine.SampleVariance(ssd, n);
    MeanTimesCount(s, n);
    MonteCarloEngine.SampleVarianceTimesDegrees(ssd, n);
    VarianceScaling(ss, s, c, n as real, (n - 1) as real, ssd, populationVariance, sampleVariance);
    ErrorsOfVariances(m, populationVariance, sampleVariance, n);
  }

  /** Standard errors over `n` paths of two variances in ratio `(n - 1) : n` are in the squared ratio `n : (n - 1)`. */
  lemma ErrorsOfVariances(m: Libm, populationVariance: real, sampleVariance: real, n: nat)
    requires Lawful(m) && n >= 2 && populationVariance >= 0.0 && sampleVariance >= 0.0
    requires populationVariance * n as real == sampleVariance * (n - 1) as real
    ensures var a := MonteCarloEngine.StandardError(m, populationVariance, n);
            var b := MonteCarloEngine.StandardError(m, sampleVariance, n);
            SquaredRatio(a, b, n)
  {
    ErrorScaling(
      MonteCarloEngine.StandardError(m, populationVariance, n),
      MonteCarloEngine.StandardError(m, sampleVariance, n),
      n as real, (n - 1) as real, populationVariance, sampleVariance);
  }

  /** The population variance of any non-empty values about their mean is non-negative. */
  lemma PopulationVarianceOfValues(xs: seq<real>)
    requires |xs| > 0
    ensures PopulationVariance(SumSquares(xs), Mean(Sum(xs), |xs|), |xs|) >= 0.0
  {
    assert Mean(Sum(xs), |xs|) == Sum(xs) / |xs| as real;
    PopulationVarianceNonNegative(xs);
  }

  lemma VarianceScaling(ss: real, s: real, c: real, n: real, n1: real, squaredDeviations: real,
                         populationVariance: real, sampleVariance: real)
    requires n > 1.0 && n1 == n - 1.0 && c * n == s
    requires populationVariance == ss / n - c * c
    requires sampleVariance * n1 == squaredDeviations && squaredDeviations == ss - 2.0 * c * s + n * c * c
    ensures populationVariance * n == sampleVariance * n1
  {
    assert ss - 2.0 * c * s + n * c * c == ss - n * c * c;
    assert populationVariance * n == ss - n * c * c;
  }

  lemma ErrorScaling(a: real, b: real, n: real, n1: real, populationVariance: real, sampleVariance: real)
    requires n > 0.0
    requires a * a * n == populationVariance && b * b * n == sampleVariance
    requires populationVariance * n == sampleVariance * n1
    ensures a * a * n == b * b * n1
  {
    assert (a * a * n) * n == (b * b * n1) * n;
  }
}
