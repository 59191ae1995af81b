/** Laws of the moving average: it stays among its samples, moves with each of them, and weighs them
    geometrically. */
module EmaLaws {
  import opened Predictor

  // ---------- Products of reals ----------

  lemma {:induction false} Scaled(c: real, x: real, y: real)
    requires c >= 0.0 && x <= y
    ensures c * x <= c * y
  {
  }

  lemma {:induction false} Weighted(w: real, o: real, x: real, y: real, u: real, v: real)
    requires 0.0 <= w && 0.0 <= o && x <= u && y <= v
    ensures w * x + o * y <= w * u + o * v
  {
    Scaled(w, x, u);
    Scaled(o, y, v);
  }

  /** A weighted mean of two values moves with each of them. */
  lemma {:induction false} Mix(w: real, x: real, y: real, u: real, v: real)
    requires 0.0 <= w <= 1.0 && x <= u && y <= v
    ensures w * x + (1.0 - w) * y <= w * u + (1.0 - w) * v
  {
    Weighted(w, 1.0 - w, x, y, u, v);
  }

  lemma {:induction false} Constant(w: real, x: real)
    ensures w * x + (1.0 - w) * x == x
  {
  }

  /** A weighted mean lies between bounds of both values. */
  lemma {:induction false} Between(w: real, x: real, y: real, lo: real, hi: real)
    requires 0.0 <= w <= 1.0 && lo <= x <= hi && lo <= y <= hi
    ensures lo <= w * x + (1.0 - w) * y <= hi
  {
    Mix(w, lo, lo, x, y);
    Mix(w, x, y, hi, hi);
    Constant(w, lo);
    Constant(w, hi);
  }

  // ---------- Hull and monotonicity ----------

  /** The moving average never leaves the hull of its samples. */
  lemma {:induction false} EmaInHull(alpha: real, samples: seq<Record>, lo: real, hi: real)
    requires samples != [] && 0.0 <= alpha <= 1.0
    requires forall r | r in samples :: lo <= r.inUse as real <= hi
    ensures lo <= Ema(alpha, samples) <= hi
    decreases |samples|
  {
    var n := |samples| - 1;
    assert samples[n] in samples;
    if n > 0 {
      EmaInHull(alpha, samples[..n], lo, hi);
      EmaStep(alpha, samples);
      Between(alpha, samples[n].inUse as real, Ema(alpha, samples[..n]), lo, hi);
    }
  }

  lemma {:induction false} EmaStep(alpha: real, samples: seq<Record>)
    requires |samples| > 1
    ensures var n := |samples| - 1;
      Ema(alpha, samples) == alpha * samples[n].inUse as real + (1.0 - alpha) * Ema(alpha, samples[..n])
  {
  }

  lemma {:induction false} EmaIsMonotone(alpha: real, low: seq<Record>, high: seq<Record>)
    requires 0.0 <= alpha <= 1.0 && low != [] && |low| == |high|
    requires forall k | 0 <= k < |low| :: low[k].inUse <= high[k].inUse
    ensures Ema(alpha, low) <= Ema(alpha, high)
    decreases |low|
  {
    var n := |low| - 1;
    if n > 0 {
      EmaIsMonotone(alpha, low[..n], high[..n]);
      EmaStep(alpha, low);
      EmaStep(alpha, high);
      Mix(alpha, low[n].inUse as real, Ema(alpha, low[..n]), high[n].inUse as real, Ema(alpha, high[..n]));
    }
  }

  // ---------- Geometric weights ----------

  function Pow(x: real, n: nat): real {
    if n == 0 then 1.0 else x * Pow(x, n - 1)
  }

  /** The weight of sample k among n: alpha times beta to its age, the oldest taking what is left. */
  function GeometricWeight(alpha: real, beta: real, n: nat, k: nat): real
    requires k < n
  {
    if k == 0 then Pow(beta, n - 1) else alpha * Pow(beta, n - 1 - k)
  }

  function Weights(alpha: real, beta: real, n: nat): (weights: seq<real>)
    ensures |weights| == n && forall k | 0 <= k < n :: weights[k] == GeometricWeight(alpha, beta, n, k)
  {
    seq(n, k requires 0 <= k < n => GeometricWeight(alpha, beta, n, k))
  }

  function Sum(weights: seq<real>, m: nat): real
    requires m <= |weights|
  {
    if m == 0 then 0.0 else Sum(weights, m - 1) + weights[m - 1]
  }

  /** The weighted sum of the first m samples. */
  function WeightedSum(weights: seq<real>, samples: seq<Record>, m: nat): real
    requires m <= |weights| && m <= |samples|
  {
    if m == 0 then 0.0 else WeightedSum(weights, samples, m - 1) + Term(weights[m - 1], samples[m - 1])
  }

  function Term(weight: real, r: Record): real {
    weight * r.inUse as real
  }

  lemma {:induction false} Reordered(a: real, b: real, c: real)
    ensures a * (b * c) == b * (a * c)
  {
  }

  lemma {:induction false} AgesByOne(alpha: real, beta: real, n: nat, k: nat)
    requires k < n
    ensures GeometricWeight(alpha, beta, n + 1, k) == beta * GeometricWeight(alpha, beta, n, k)
  {
    Reordered(alpha, beta, Pow(beta, n - 1 - k));
  }

  lemma {:induction false} ShrinkTerm(beta: real, w: real, v: real, r: Record)
    requires w == beta * v
    ensures Term(w, r) == beta * Term(v, r)
  {
    Reassociated(beta, v, r.inUse as real);
  }

  lemma {:induction false} Reassociated(c: real, v: real, x: real)
    ensures (c * v) * x == c * (v * x)
  {
  }

  lemma {:induction false} ShrinkSum(c: real, a: real, w: real, b: real, v: real)
    requires a == c * b && w == c * v
    ensures a + w == c * (b + v)
  {
  }

  predicate Shrunk(more: seq<real>, weights: seq<real>, beta: real) {
    |weights| <= |more| && forall k | 0 <= k < |weights| :: more[k] == beta * weights[k]
  }

  /** When every weight shrinks by the same factor, so do the sums. */
  lemma {:induction false} SumShrinks(more: seq<real>, weights: seq<real>, beta: real, m: nat)
    requires Shrunk(more, weights, beta) && m <= |weights|
    ensures Sum(more, m) == beta * Sum(weights, m)
    decreases m
  {
    if m > 0 {
      SumShrinks(more, weights, beta, m - 1);
      ShrinkSum(beta, Sum(more, m - 1), more[m - 1], Sum(weights, m - 1), weights[m - 1]);
    }
  }

  lemma {:induction false} WeightedSumShrinks(more: seq<real>, weights: seq<real>, beta: real, samples: seq<Record>,
                                              m: nat)
    requires Shrunk(more, weights, beta) && m <= |weights| && m <= |samples|
    ensures WeightedSum(more, samples, m) == beta * WeightedSum(weights, samples, m)
    decreases m
  {
    if m > 0 {
      var k := m - 1;
      WeightedSumShrinks(more, weights, beta, samples, k);
      ShrinkTerm(beta, more[k], weights[k], samples[k]);
      ShrinkSum(beta, WeightedSum(more, samples, k), Term(more[k], samples[k]),
                WeightedSum(weights, samples, k), Term(weights[k], samples[k]));
    }
  }

  lemma {:induction false} WeightsShrink(alpha: real, beta: real, n: nat)
    ensures Shrunk(Weights(alpha, beta, n + 1), Weights(alpha, beta, n), beta)
  {
    forall k | 0 <= k < n ensures Weights(alpha, beta, n + 1)[k] == beta * Weights(alpha, beta, n)[k] {
      AgesByOne(alpha, beta, n, k);
    }
  }

  lemma {:induction false} SamePrefix(weights: seq<real>, x: seq<Record>, y: seq<Record>, m: nat)
    requires m <= |weights| && m <= |x| && x <= y
    ensures WeightedSum(weights, x, m) == WeightedSum(weights, y, m)
    decreases m
  {
    if m > 0 { SamePrefix(weights, x, y, m - 1); }
  }

  /** The loop computes the geometrically weighted mean of the samples: the weights sum to one. */
  lemma {:induction false} EmaIsGeometric(alpha: real, beta: real, samples: seq<Record>)
    requires samples != [] && alpha + beta == 1.0
    ensures Ema(alpha, samples) == WeightedSum(Weights(alpha, beta, |samples|), samples, |samples|)
    ensures Sum(Weights(alpha, beta, |samples|), |samples|) == 1.0
    decreases |samples|
  {
    var n := |samples| - 1;
    var weights, more := Weights(alpha, beta, n), Weights(alpha, beta, n + 1);
    if n == 0 {
      OneSample(more, samples);
    } else {
      EmaIsGeometric(alpha, beta, samples[..n]);
      WeightsShrink(alpha, beta, n);
      LastWeight(alpha, beta, n);
      MeanOfOneMore(alpha, beta, more, weights, samples);
      SumShrinks(more, weights, beta, n);
    }
  }

  lemma {:induction false} MeanOfOneMore(alpha: real, beta: real, more: seq<real>, weights: seq<real>,
                                         samples: seq<Record>)
    requires |samples| > 1 && |weights| == |samples| - 1 && |more| == |samples| && alpha + beta == 1.0
    requires Shrunk(more, weights, beta) && more[|weights|] == alpha
    requires Ema(alpha, samples[..|weights|]) == WeightedSum(weights, samples[..|weights|], |weights|)
    ensures Ema(alpha, samples) == WeightedSum(more, samples, |samples|)
  {
    var n := |weights|;
    WeightedSumShrinks(more, weights, beta, samples, n);
    SamePrefix(weights, samples[..n], samples, n);
    EmaStep(alpha, samples);
    Assemble(alpha, beta, samples[n].inUse as real, Ema(alpha, samples[..n]), Ema(alpha, samples),
             WeightedSum(more, samples, n), WeightedSum(more, samples, n + 1));
  }

  lemma {:induction false} Assemble(alpha: real, beta: real, x: real, e: real, ema: real, head: real, total: real)
    requires ema == alpha * x + (1.0 - alpha) * e && alpha + beta == 1.0
    requires head == beta * e && total == head + alpha * x
    ensures ema == total
  {
    Complement(alpha, beta, e);
  }

  lemma {:induction false} LastWeight(alpha: real, beta: real, n: nat)
    requires n > 0
    ensures GeometricWeight(alpha, beta, n + 1, n) == alpha
  {
    assert Pow(beta, 0) == 1.0;
  }

  lemma {:induction false} Complement(alpha: real, beta: real, x: real)
    requires alpha + beta == 1.0
    ensures (1.0 - alpha) * x == beta * x
  {
  }

  lemma {:induction false} OneSample(weights: seq<real>, samples: seq<Record>)
    requires |samples| == 1 && weights == [1.0]
    ensures WeightedSum(weights, samples, 1) == samples[0].inUse as real && Sum(weights, 1) == 1.0
  {
    assert WeightedSum(weights, samples, 0) == 0.0 && Sum(weights, 0) == 0.0;
  }
}
