/** What a prediction can be: its bounds, and how it moves with the samples. */
module PredictionLaws {
  import opened Predictor
  import opened EmaLaws

  predicate NonNegative(factors: seq<real>) {
    forall i | 0 <= i < |factors| :: factors[i] >= 0.0
  }

  /** The configurations the bounds are about. */
  predicate Sane(config: Config) {
    && config.emaPeriod >= 1 && 0.0 <= config.emaWeight <= 1.0
    && |config.weekDecay| == WEEKS && NonNegative(config.weekDecay)
  }

  // ---------- Sorting aligned records ----------

  /** The same instants, with samples that are nowhere higher. */
  predicate Below(low: seq<Record>, high: seq<Record>) {
    |low| == |high| && forall k | 0 <= k < |low| ::
      low[k].recordedAt == high[k].recordedAt && low[k].inUse <= high[k].inUse
  }

  predicate DistinctTimes(records: seq<Record>) {
    forall i, j | 0 <= i < j < |records| :: records[i].recordedAt != records[j].recordedAt
  }

  lemma {:induction false} LastIsLatest(sorted: seq<Record>, records: seq<Record>)
    requires records != [] && SortedFrom(sorted, records)
    ensures |sorted| == |records| && sorted[|sorted| - 1] in records
    ensures forall r | r in records :: r.recordedAt <= sorted[|sorted| - 1].recordedAt
  {
    assert |multiset(sorted)| == |multiset(records)|;
    assert sorted[|sorted| - 1] in multiset(records);
    forall r | r in records ensures r.recordedAt <= sorted[|sorted| - 1].recordedAt {
      assert r in multiset(sorted);
    }
  }

  lemma {:induction false} WithoutLast(sorted: seq<Record>, records: seq<Record>, i: nat)
    requires i < |records| && SortedFrom(sorted, records) && |sorted| == |records| && sorted[|sorted| - 1] == records[i]
    ensures SortedFrom(sorted[..|sorted| - 1], records[..i] + records[i + 1..])
  {
    var rest, n := records[..i] + records[i + 1..], |sorted| - 1;
    assert records == records[..i] + ([records[i]] + records[i + 1..]);
    assert multiset(records) == multiset(records[..i]) + (multiset{records[i]} + multiset(records[i + 1..]));
    assert sorted == sorted[..n] + [records[i]];
    Cancel(multiset(sorted[..n]), multiset(rest), records[i]);
  }

  lemma {:induction false} Cancel(x: multiset<Record>, y: multiset<Record>, r: Record)
    requires x + multiset{r} == y + multiset{r}
    ensures x == y
  {
    assert x == (x + multiset{r}) - multiset{r} == (y + multiset{r}) - multiset{r} == y;
  }

  lemma {:induction false} SameLatest(low: seq<Record>, high: seq<Record>, x: seq<Record>, y: seq<Record>)
    returns (i: nat)
    requires Below(low, high) && DistinctTimes(low) && SortedFrom(x, low) && SortedFrom(y, high) && low != []
    ensures i < |low| && |x| == |y| == |low| && x[|x| - 1] == low[i] && y[|y| - 1] == high[i]
  {
    LastIsLatest(x, low);
    LastIsLatest(y, high);
    i :| 0 <= i < |low| && low[i] == x[|x| - 1];
    var j :| 0 <= j < |high| && high[j] == y[|y| - 1];
    assert low[j] in low && high[i] in high;
    assert low[i].recordedAt == low[j].recordedAt;
  }

  lemma {:induction false} BelowWithout(low: seq<Record>, high: seq<Record>, i: nat)
    requires Below(low, high) && DistinctTimes(low) && i < |low|
    ensures Below(low[..i] + low[i + 1..], high[..i] + high[i + 1..]) && DistinctTimes(low[..i] + low[i + 1..])
  {
    var a, b := low[..i] + low[i + 1..], high[..i] + high[i + 1..];
    forall k | 0 <= k < |a|
      ensures a[k] == (if k < i then low[k] else low[k + 1]) && b[k] == (if k < i then high[k] else high[k + 1])
    {
    }
  }

  /** Takes the latest record off both series. */
  lemma {:induction false} Peel(low: seq<Record>, high: seq<Record>, x: seq<Record>, y: seq<Record>)
    returns (low2: seq<Record>, high2: seq<Record>)
    requires Below(low, high) && DistinctTimes(low) && SortedFrom(x, low) && SortedFrom(y, high) && low != []
    ensures |x| == |y| == |low| && x[|x| - 1].inUse <= y[|y| - 1].inUse && |low2| == |low| - 1
    ensures Below(low2, high2) && DistinctTimes(low2)
    ensures SortedFrom(x[..|x| - 1], low2) && SortedFrom(y[..|y| - 1], high2)
  {
    var i := SameLatest(low, high, x, y);
    WithoutLast(x, low, i);
    WithoutLast(y, high, i);
    BelowWithout(low, high, i);
    return low[..i] + low[i + 1..], high[..i] + high[i + 1..];
  }

  /** Sorted by time, the samples of the lower series are nowhere higher. */
  lemma {:induction false} SortedBelow(low: seq<Record>, high: seq<Record>, x: seq<Record>, y: seq<Record>)
    requires Below(low, high) && DistinctTimes(low) && SortedFrom(x, low) && SortedFrom(y, high)
    ensures |x| == |y| && forall k | 0 <= k < |x| :: x[k].inUse <= y[k].inUse
    decreases |low|
  {
    if low == [] {
      assert |multiset(x)| == 0 && |multiset(y)| == 0;
    } else {
      var low2, high2 := Peel(low, high, x, y);
      var xs, ys := x[..|x| - 1], y[..|y| - 1];
      SortedBelow(low2, high2, xs, ys);
      forall k | 0 <= k < |x| ensures x[k].inUse <= y[k].inUse {
        if k < |xs| { assert xs[k] == x[k] && ys[k] == y[k]; }
      }
    }
  }

  // ---------- Decayed history ----------

  /** Zero when the week has no records: it then adds neither value nor weight. */
  function Share(records: seq<Record>, factor: real): real {
    if records == [] then 0.0 else factor
  }

  lemma {:induction false} ContributionInHull(records: seq<Record>, factor: real, top: int)
    requires factor >= 0.0 && top >= 0 && forall r | r in records :: r.inUse <= top
    ensures 0.0 <= Contribution(records, factor) <= top as real * Share(records, factor)
    ensures Share(records, factor) >= 0.0
  {
    PeakAtMost(records, top);
    if records != [] {
      TimesFactor(0.0, Peak(records) as real, factor);
      TimesFactor(Peak(records) as real, top as real, factor);
    }
  }

  lemma {:induction false} Spread(top: real, x: real, y: real)
    ensures top * (x + y) == top * x + top * y
  {
  }

  lemma {:induction false} HistoryInHull(factors: seq<real>, batch: seq<seq<Record>>, top: int, n: nat)
    requires n <= |batch| <= |factors| && NonNegative(factors)
    requires top >= 0 && AtMost(batch, top)
    ensures Weight(factors, batch, n) >= 0.0
    ensures 0.0 <= WeightedPeaks(factors, batch, n) <= top as real * Weight(factors, batch, n)
    decreases n
  {
    if n > 0 {
      var records, factor := batch[n - 1], factors[n - 1];
      HistoryInHull(factors, batch, top, n - 1);
      AllAtMost(batch, n - 1, top);
      ContributionInHull(records, factor, top);
      Spread(top as real, Weight(factors, batch, n - 1), Share(records, factor));
      assert Weight(factors, batch, n) == Weight(factors, batch, n - 1) + Share(records, factor);
      assert WeightedPeaks(factors, batch, n) == WeightedPeaks(factors, batch, n - 1) + Contribution(records, factor);
    }
  }

  lemma {:induction false} AllAtMost(batch: seq<seq<Record>>, i: nat, top: int)
    requires i < |batch| && AtMost(batch, top)
    ensures forall r | r in batch[i] :: r.inUse <= top
  {
  }

  lemma {:induction false} PeakAtMost(records: seq<Record>, top: int)
    requires top >= 0 && forall r | r in records :: r.inUse <= top
    ensures Peak(records) <= top
  {
    PeakIsMaximum(records);
  }

  lemma {:induction false} HistoricalInHull(factors: seq<real>, batch: seq<seq<Record>>, top: int)
    requires |batch| <= |factors| && NonNegative(factors)
    requires top >= 0 && AtMost(batch, top)
    ensures 0.0 <= Historical(factors, batch) <= top as real
  {
    HistoryInHull(factors, batch, top, |batch|);
    var total := Weight(factors, batch, |batch|);
    if total != 0.0 { Quotient(WeightedPeaks(factors, batch, |batch|), total, top as real); }
  }

  lemma {:induction false} Quotient(sum: real, total: real, top: real)
    requires total > 0.0 && 0.0 <= sum <= top * total
    ensures 0.0 <= sum / total <= top
  {
    assert (top * total - sum) / total >= 0.0;
    assert (top * total) / total == top;
  }

  lemma {:induction false} PeaksBelow(low: seq<Record>, high: seq<Record>)
    requires Below(low, high)
    ensures Peak(low) <= Peak(high)
    decreases |low|
  {
    if low != [] { PeaksBelow(low[..|low| - 1], high[..|high| - 1]); }
  }

  lemma {:induction false} HistoryBelow(factors: seq<real>, low: seq<seq<Record>>, high: seq<seq<Record>>, n: nat)
    requires n <= |low| == |high| <= |factors| && NonNegative(factors)
    requires BelowEach(low, high)
    ensures Weight(factors, low, n) == Weight(factors, high, n) >= 0.0
    ensures WeightedPeaks(factors, low, n) <= WeightedPeaks(factors, high, n)
    decreases n
  {
    if n > 0 {
      HistoryBelow(factors, low, high, n - 1);
      ContributionsBelow(low[n - 1], high[n - 1], factors[n - 1]);
    }
  }

  lemma {:induction false} ContributionsBelow(low: seq<Record>, high: seq<Record>, factor: real)
    requires Below(low, high) && factor >= 0.0
    ensures Contribution(low, factor) <= Contribution(high, factor)
  {
    PeaksBelow(low, high);
    TimesFactor(Peak(low) as real, Peak(high) as real, factor);
  }

  lemma {:induction false} TimesFactor(x: real, y: real, factor: real)
    requires x <= y && factor >= 0.0
    ensures x * factor <= y * factor
  {
  }

  lemma {:induction false} HistoricalBelow(factors: seq<real>, low: seq<seq<Record>>, high: seq<seq<Record>>)
    requires |low| == |high| <= |factors| && NonNegative(factors)
    requires BelowEach(low, high)
    ensures Historical(factors, low) <= Historical(factors, high)
  {
    HistoryBelow(factors, low, high, |low|);
    var x, y, total := WeightedPeaks(factors, low, |low|), WeightedPeaks(factors, high, |high|),
        Weight(factors, low, |low|);
    if total != 0.0 { Quotients(x, y, total); }
  }

  lemma {:induction false} Quotients(x: real, y: real, total: real)
    requires total > 0.0 && x <= y
    ensures x / total <= y / total
  {
    assert (y - x) / total >= 0.0;
  }

  // ---------- Predictions ----------

  /** Everything a prediction looks at. */
  function Fetched(config: Config, store: Store, start: int, end: int): seq<seq<Record>> {
    Batch(store, WeekRanges(start, end)) +
    if IsWeekend(start) then [] else Batch(store, Windows(start, end, LookbackDays(config, start)))
  }

  predicate AtMost(batch: seq<seq<Record>>, top: int) {
    forall i, r | 0 <= i < |batch| && r in batch[i] :: r.inUse <= top
  }

  lemma {:induction false} FlattenAtMost(batch: seq<seq<Record>>, top: int)
    requires AtMost(batch, top)
    ensures forall r | r in Flatten(batch) :: r.inUse <= top
    decreases |batch|
  {
    if batch != [] {
      FlattenAtMost(batch[..|batch| - 1], top);
      assert forall r | r in batch[|batch| - 1] :: r.inUse <= top;
    }
  }

  lemma {:induction false} EmaAtMost(config: Config, records: seq<Record>, ema: real, top: int)
    requires Sane(config) && IsEma(config, records, ema) && top >= 0 && forall r | r in records :: r.inUse <= top
    ensures ema <= top as real
  {
    if records != [] {
      var sorted :| sorted != [] && SortedFrom(sorted, records) && ema == Ema(Alpha(config), sorted);
      forall r | r in sorted ensures r.inUse as real <= top as real {
        assert r in multiset(records);
      }
      EmaBelowTop(Alpha(config), sorted, top as real);
    }
  }

  lemma {:induction false} EmaBelowTop(alpha: real, samples: seq<Record>, top: real)
    requires samples != [] && 0.0 <= alpha <= 1.0 && forall r | r in samples :: r.inUse as real <= top
    ensures Ema(alpha, samples) <= top
    decreases |samples|
  {
    var n := |samples| - 1;
    if n > 0 {
      EmaBelowTop(alpha, samples[..n], top);
      assert samples[n] in samples;
      Mix(alpha, samples[n].inUse as real, Ema(alpha, samples[..n]), top, top);
    }
  }

  lemma {:induction false} CombineBelow(config: Config, x: real, y: real, u: real, v: real)
    requires 0.0 <= config.emaWeight <= 1.0 && x <= u && y <= v
    ensures Combine(config, x, y) <= Combine(config, u, v)
  {
    Mix(config.emaWeight, x, y, u, v);
  }

  lemma {:induction false} CombineAtMost(config: Config, x: real, y: real, top: real)
    requires 0.0 <= config.emaWeight <= 1.0 && x <= top && y <= top
    ensures Combine(config, x, y) <= top
  {
    Mix(config.emaWeight, x, y, top, top);
  }

  lemma {:induction false} BaseAtMost(config: Config, store: Store, start: int, end: int, base: real, top: int)
    requires Sane(config) && IsBase(config, store, start, end, base)
    requires top >= 0 && AtMost(Batch(store, WeekRanges(start, end)), top)
    requires !IsWeekend(start) ==> AtMost(Batch(store, Windows(start, end, LookbackDays(config, start))), top)
    ensures base <= top as real
  {
    var historical := Historical(config.weekDecay, Batch(store, WeekRanges(start, end)));
    HistoricalInHull(config.weekDecay, Batch(store, WeekRanges(start, end)), top);
    if !IsWeekend(start) {
      FlattenAtMost(Batch(store, Windows(start, end, LookbackDays(config, start))), top);
      var ema :| IsEma(config, RecentRecords(config, store, start, end), ema) &&
          base == Combine(config, ema, historical);
      EmaAtMost(config, RecentRecords(config, store, start, end), ema, top);
      CombineAtMost(config, ema, historical, top as real);
    }
  }

  lemma {:induction false} PartsAtMost(x: seq<seq<Record>>, y: seq<seq<Record>>, top: int)
    requires AtMost(x + y, top)
    ensures AtMost(x, top) && AtMost(y, top)
  {
    forall i, r | 0 <= i < |x| && r in x[i] ensures r.inUse <= top { assert r in (x + y)[i]; }
    forall i, r | 0 <= i < |y| && r in y[i] ensures r.inUse <= top { assert r in (x + y)[|x| + i]; }
  }

  lemma {:induction false} FlooredAtMost(config: Config, base: real, top: int)
    requires base <= top as real
    ensures config.minInstances <= Floored(config, base)
    ensures Floored(config, base) <= if config.minInstances > top then config.minInstances else top
  {
    if Ceil(base) > top { assert (Ceil(base) - 1) as real >= top as real; }
  }

  /** A prediction is never below the configured minimum, and above it never above the largest
      sample looked at. */
  lemma {:induction false} PredictionInBounds(config: Config, store: Store, start: int, end: int, prediction: int,
                                              top: int)
    requires Sane(config) && Predicts(config, store, start, end, prediction)
    requires top >= 0 && AtMost(Fetched(config, store, start, end), top)
    ensures config.minInstances <= prediction
    ensures prediction <= if config.minInstances > top then config.minInstances else top
  {
    var base :| IsBase(config, store, start, end, base) && prediction == Floored(config, base);
    var days := if IsWeekend(start) then [] else Batch(store, Windows(start, end, LookbackDays(config, start)));
    PartsAtMost(Batch(store, WeekRanges(start, end)), days, top);
    BaseAtMost(config, store, start, end, base, top);
    FlooredAtMost(config, base, top);
  }

  predicate BelowEach(low: seq<seq<Record>>, high: seq<seq<Record>>) {
    |low| == |high| && forall i | 0 <= i < |low| :: Below(low[i], high[i])
  }

  lemma {:induction false} FlattenBelow(low: seq<seq<Record>>, high: seq<seq<Record>>)
    requires BelowEach(low, high)
    ensures Below(Flatten(low), Flatten(high))
    decreases |low|
  {
    if low != [] {
      FlattenBelow(low[..|low| - 1], high[..|high| - 1]);
    }
  }

  lemma {:induction false} EmaBelow(config: Config, low: seq<Record>, high: seq<Record>, x: real, y: real)
    requires Sane(config) && Below(low, high) && DistinctTimes(low)
    requires IsEma(config, low, x) && IsEma(config, high, y)
    ensures x <= y
  {
    if low != [] {
      var a :| a != [] && SortedFrom(a, low) && x == Ema(Alpha(config), a);
      var b :| b != [] && SortedFrom(b, high) && y == Ema(Alpha(config), b);
      SortedBelow(low, high, a, b);
      EmaIsMonotone(Alpha(config), a, b);
    }
  }

  lemma {:induction false} BaseBelow(config: Config, low: Store, high: Store, start: int, end: int, x: real, y: real)
    requires Sane(config) && IsBase(config, low, start, end, x) && IsBase(config, high, start, end, y)
    requires BelowEach(Batch(low, WeekRanges(start, end)), Batch(high, WeekRanges(start, end)))
    requires var ranges := Windows(start, end, LookbackDays(config, start));
      !IsWeekend(start) ==> BelowEach(Batch(low, ranges), Batch(high, ranges))
    requires DistinctTimes(RecentRecords(config, low, start, end))
    ensures x <= y
  {
    var weeks := WeekRanges(start, end);
    var h, k := Historical(config.weekDecay, Batch(low, weeks)), Historical(config.weekDecay, Batch(high, weeks));
    HistoricalBelow(config.weekDecay, Batch(low, weeks), Batch(high, weeks));
    if !IsWeekend(start) {
      var ranges := Windows(start, end, LookbackDays(config, start));
      FlattenBelow(Batch(low, ranges), Batch(high, ranges));
      var a :| IsEma(config, RecentRecords(config, low, start, end), a) && x == Combine(config, a, h);
      var b :| IsEma(config, RecentRecords(config, high, start, end), b) && y == Combine(config, b, k);
      EmaBelow(config, RecentRecords(config, low, start, end), RecentRecords(config, high, start, end), a, b);
      CombineBelow(config, a, h, b, k);
    }
  }

  /** Raising samples, at the same distinct instants, never lowers the prediction. */
  lemma {:induction false} PredictionIsMonotone(config: Config, low: Store, high: Store, start: int, end: int, p: int,
                                                q: int)
    requires Sane(config) && Predicts(config, low, start, end, p) && Predicts(config, high, start, end, q)
    requires BelowEach(Fetched(config, low, start, end), Fetched(config, high, start, end))
    requires DistinctTimes(RecentRecords(config, low, start, end))
    ensures p <= q
  {
    var x :| IsBase(config, low, start, end, x) && p == Floored(config, x);
    var y :| IsBase(config, high, start, end, y) && q == Floored(config, y);
    FetchedParts(config, low, high, start, end);
    BaseBelow(config, low, high, start, end, x, y);
    FlooredIsMonotone(config, x, y);
  }

  lemma {:induction false} FetchedParts(config: Config, low: Store, high: Store, start: int, end: int)
    requires BelowEach(Fetched(config, low, start, end), Fetched(config, high, start, end))
    ensures BelowEach(Batch(low, WeekRanges(start, end)), Batch(high, WeekRanges(start, end)))
    ensures var ranges := Windows(start, end, LookbackDays(config, start));
      !IsWeekend(start) ==> BelowEach(Batch(low, ranges), Batch(high, ranges))
  {
    var f, g := Fetched(config, low, start, end), Fetched(config, high, start, end);
    var a, b := Batch(low, WeekRanges(start, end)), Batch(high, WeekRanges(start, end));
    forall i | 0 <= i < |a| ensures Below(a[i], b[i]) { assert Below(f[i], g[i]); }
    if !IsWeekend(start) {
      var ranges := Windows(start, end, LookbackDays(config, start));
      var x, y := Batch(low, ranges), Batch(high, ranges);
      forall i | 0 <= i < |x| ensures Below(x[i], y[i]) { assert Below(f[|a| + i], g[|a| + i]); }
    }
  }

  lemma {:induction false} FlooredIsMonotone(config: Config, x: real, y: real)
    requires x <= y
    ensures Floored(config, x) <= Floored(config, y)
  {
    if Ceil(x) > Ceil(y) { assert (Ceil(x) - 1) as real >= Ceil(y) as real; }
  }
}
