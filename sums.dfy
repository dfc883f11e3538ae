/**
 * Sums over sequences of reals, as the engines accumulate them: `Iterator::sum`,
 * running `+=` totals and sums of squares. Every sum is taken left to right, so each
 * is defined by peeling off the last element.
 */
module Sums {

  function Sum(xs: seq<real>): real
    decreases |xs|
  {
    if |xs| == 0 then 0.0 else Sum(xs[..|xs| - 1]) + xs[|xs| - 1]
  }

  function SumSquares(xs: seq<real>): real
    decreases |xs|
  {
    if |xs| == 0 then 0.0 else SumSquares(xs[..|xs| - 1]) + xs[|xs| - 1] * xs[|xs| - 1]
  }

  /** Sum of `(x - c)^2` over the sequence. */
  function SumSquaredDeviations(xs: seq<real>, c: real): real
    decreases |xs|
  {
    if |xs| == 0 then 0.0
    else SumSquaredDeviations(xs[..|xs| - 1], c) + (xs[|xs| - 1] - c) * (xs[|xs| - 1] - c)
  }

  /** Every element multiplied by `c`. */
  function Scale(xs: seq<real>, c: real): (ys: seq<real>)
    ensures |ys| == |xs| && forall i :: 0 <= i < |xs| ==> ys[i] == xs[i] * c
  {
    seq(|xs|, i requires 0 <= i < |xs| => xs[i] * c)
  }

  /** Extending a running total by one element adds that element. */
  lemma SumSnoc(xs: seq<real>, x: real)
    ensures Sum(xs + [x]) == Sum(xs) + x
    ensures SumSquares(xs + [x]) == SumSquares(xs) + x * x
  {
    assert (xs + [x])[..|xs|] == xs;
  }

  /** A running total over a prefix grows by the next element. */
  lemma SumPrefix(xs: seq<real>, i: nat)
    requires i < |xs|
    ensures Sum(xs[..i + 1]) == Sum(xs[..i]) + xs[i]
    ensures SumSquares(xs[..i + 1]) == SumSquares(xs[..i]) + xs[i] * xs[i]
  {
    assert xs[..i + 1][..i] == xs[..i];
  }

  /** Sums split over concatenation, which is what lets chunk totals be added up. */
  lemma {:induction false} SumAppend(xs: seq<real>, ys: seq<real>)
    ensures Sum(xs + ys) == Sum(xs) + Sum(ys)
    ensures SumSquares(xs + ys) == SumSquares(xs) + SumSquares(ys)
    decreases |ys|
  {
    if |ys| == 0 {
      assert xs + ys == xs;
    } else {
      var init := ys[..|ys| - 1];
      assert (xs + ys)[..|xs + ys| - 1] == xs + init;
      SumAppend(xs, init);
    }
  }

  lemma {:induction false} SumNonNegative(xs: seq<real>)
    requires forall i :: 0 <= i < |xs| ==> xs[i] >= 0.0
    ensures Sum(xs) >= 0.0
    decreases |xs|
  {
    if |xs| > 0 {
      SumNonNegative(xs[..|xs| - 1]);
    }
  }

  lemma {:induction false} SumSquaresNonNegative(xs: seq<real>)
    ensures SumSquares(xs) >= 0.0
    decreases |xs|
  {
    if |xs| > 0 {
      var x := xs[|xs| - 1];
      SumSquaresNonNegative(xs[..|xs| - 1]);
      Square(x);
    }
  }

  lemma {:induction false} SumSquaredDeviationsNonNegative(xs: seq<real>, c: real)
    ensures SumSquaredDeviations(xs, c) >= 0.0
    decreases |xs|
  {
    if |xs| > 0 {
      SumSquaredDeviationsNonNegative(xs[..|xs| - 1], c);
      Square(xs[|xs| - 1] - c);
    }
  }

  lemma Square(u: real)
    ensures u * u >= 0.0
  {
    if u < 0.0 {
      assert u * u == (-u) * (-u);
    }
  }

  /** Multiplying every element by `c` multiplies the sum by `c`. */
  lemma {:induction false} SumScale(xs: seq<real>, c: real)
    ensures Sum(Scale(xs, c)) == Sum(xs) * c
    decreases |xs|
  {
    if |xs| > 0 {
      var init := xs[..|xs| - 1];
      assert forall i :: 0 <= i < |init| ==> Scale(xs, c)[..|xs| - 1][i] == Scale(init, c)[i];
      assert Scale(xs, c)[..|xs| - 1] == Scale(init, c);
      SumScale(init, c);
      assert (Sum(init) + xs[|xs| - 1]) * c == Sum(init) * c + xs[|xs| - 1] * c;
    }
  }

  /**
   * When `xs[i] - ys[i] == zs[i] - c` elementwise, the sums differ by
   * `Sum(zs) - n * c`.
   */
  lemma {:induction false} SumOfDifferences(xs: seq<real>, ys: seq<real>, zs: seq<real>, c: real)
    requires |xs| == |ys| == |zs|
    requires forall i :: 0 <= i < |xs| ==> xs[i] - ys[i] == zs[i] - c
    ensures Sum(xs) - Sum(ys) == Sum(zs) - |xs| as real * c
    decreases |xs|
  {
    if |xs| > 0 {
      var n := |xs| - 1;
      SumOfDifferences(xs[..n], ys[..n], zs[..n], c);
      assert (n + 1) as real * c == n as real * c + c;
    }
  }

  /**
   * The expansion of the squared deviations:
   * `sum (x - c)^2 == sum x^2 - 2 c sum x + n c^2`.
   */
  lemma {:induction false} DeviationIdentity(xs: seq<real>, c: real)
    ensures SumSquaredDeviations(xs, c) == SumSquares(xs) - 2.0 * c * Sum(xs) + |xs| as real * c * c
    decreases |xs|
  {
    if |xs| > 0 {
      var n := |xs| - 1;
      var x := xs[n];
      DeviationIdentity(xs[..n], c);
      assert (x - c) * (x - c) == x * x - 2.0 * c * x + c * c;
      assert (n + 1) as real * c * c == n as real * c * c + c * c;
      assert 2.0 * c * (Sum(xs[..n]) + x) == 2.0 * c * Sum(xs[..n]) + 2.0 * c * x;
    }
  }

  /**
   * The population variance `sum x^2 / n - (sum x / n)^2` is never negative: it is
   * `sum (x - mean)^2 / n`.
   */
  lemma PopulationVarianceNonNegative(xs: seq<real>)
    requires |xs| > 0
    ensures SumSquares(xs) / |xs| as real - (Sum(xs) / |xs| as real) * (Sum(xs) / |xs| as real) >= 0.0
  {
    var n := |xs| as real;
    var q := SumSquares(xs);
    var s := Sum(xs);
    assert q - 2.0 * (s / n) * s + n * (s / n) * (s / n) >= 0.0 by {
      QuadraticNonNegative(xs, s / n);
    }
    VarianceAlgebra(q, s, n);
  }

  /** `sum x^2 - 2 c sum x + n c^2` is a sum of squares, so it is never negative, whatever `c`. */
  lemma QuadraticNonNegative(xs: seq<real>, c: real)
    ensures SumSquares(xs) - 2.0 * c * Sum(xs) + |xs| as real * c * c >= 0.0
  {
    DeviationIdentity(xs, c);
    SumSquaredDeviationsNonNegative(xs, c);
  }

  /** With the mean `mu = s/n`, the expanded quadratic is `n` times `q/n - mu^2`. */
  lemma VarianceAlgebra(q: real, s: real, n: real)
    requires n > 0.0
    requires q - 2.0 * (s / n) * s + n * (s / n) * (s / n) >= 0.0
    ensures q / n - (s / n) * (s / n) >= 0.0
  {
    var mu := s / n;
    assert s == n * mu;
    assert 2.0 * mu * s == 2.0 * n * mu * mu;
    var d := q - n * mu * mu;
    assert d >= 0.0;
    assert d / n == q / n - mu * mu;
  }
}
