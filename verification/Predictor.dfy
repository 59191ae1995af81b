/** Predicting how many instances a pool will need, from its recorded utilization. */
module Predictor {
  import opened Options

  const SECONDS_PER_DAY := 24 * 3600
  const SECONDS_PER_WEEK := 7 * SECONDS_PER_DAY
  const WEEKS := 3

  datatype Config = Config(emaPeriod: int, emaWeight: real, weekDecay: seq<real>, minInstances: int,
                           maxLookbackDays: int, targetWeekdays: int)

  datatype Range = Range(start: int, end: int)

  datatype Record = Record(inUse: int, recordedAt: int)

  /** The history store: the records of a time range, and whether a batch query succeeds. */
  datatype Store = Store(history: Range -> seq<Record>, answers: seq<Range> -> bool)

  function Batch(store: Store, ranges: seq<Range>): (batch: seq<seq<Record>>)
    ensures |batch| == |ranges| && forall i | 0 <= i < |ranges| :: batch[i] == store.history(ranges[i])
  {
    seq(|ranges|, i requires 0 <= i < |ranges| => store.history(ranges[i]))
  }

  // ---------- Days ----------

  function Day(timestamp: int): int {
    timestamp / SECONDS_PER_DAY
  }

  /** Day 0, the first of January 1970, was a Thursday. Sundays are 0, Saturdays 6. */
  function Weekday(day: int): (w: int)
    ensures 0 <= w < 7
  {
    (day + 4) % 7
  }

  predicate IsWeekend(timestamp: int) {
    Weekday(Day(timestamp)) == 0 || Weekday(Day(timestamp)) == 6
  }

  /** How many days back, among the last n days, are weekdays; nearest first. */
  function WeekdaysBack(start: int, n: int): (days: seq<int>)
    decreases n
  {
    if n <= 0 then []
    else WeekdaysBack(start, n - 1) + if IsWeekend(start - n * SECONDS_PER_DAY) then [] else [n]
  }

  function FirstOf(days: seq<int>, n: int): seq<int> {
    if n <= 0 then [] else if n < |days| then days[..n] else days
  }

  function Windows(start: int, end: int, days: seq<int>): (ranges: seq<Range>)
    ensures |ranges| == |days|
    ensures forall i | 0 <= i < |days| ::
      ranges[i] == Range(start - days[i] * SECONDS_PER_DAY, end - days[i] * SECONDS_PER_DAY)
  {
    seq(|days|, i requires 0 <= i < |days| => Range(start - days[i] * SECONDS_PER_DAY, end - days[i] * SECONDS_PER_DAY))
  }

  function LookbackDays(config: Config, start: int): seq<int> {
    FirstOf(WeekdaysBack(start, config.maxLookbackDays), config.targetWeekdays)
  }

  /** The windows of the nearest weekdays: no further back than allowed, no more than wanted. */
  method LookbackRanges(config: Config, start: int, end: int) returns (ranges: seq<Range>)
    ensures ranges == Windows(start, end, LookbackDays(config, start))
  {
    ranges := [];
    var daysBack := 1;
    while daysBack <= config.maxLookbackDays && |ranges| < config.targetWeekdays
      invariant 1 <= daysBack && (config.maxLookbackDays < 1 || daysBack <= config.maxLookbackDays + 1)
      invariant config.maxLookbackDays < 1 ==> daysBack == 1
      invariant ranges == Windows(start, end, WeekdaysBack(start, daysBack - 1))
      invariant |ranges| <= if config.targetWeekdays < 0 then 0 else config.targetWeekdays
    {
      var historicalStart := start - daysBack * SECONDS_PER_DAY;
      if !IsWeekend(historicalStart) {
        ranges := ranges + [Range(historicalStart, historicalStart + (end - start))];
      }
      daysBack := daysBack + 1;
    }
    if daysBack <= config.maxLookbackDays {
      MoreDaysLater(start, daysBack - 1, config.maxLookbackDays);
    } else {
      assert WeekdaysBack(start, daysBack - 1) == WeekdaysBack(start, config.maxLookbackDays);
    }
  }

  lemma {:induction false} MoreDaysLater(start: int, n: int, m: int)
    requires n <= m
    ensures WeekdaysBack(start, n) <= WeekdaysBack(start, m)
    decreases m - n
  {
    if n < m { MoreDaysLater(start, n, m - 1); }
  }

  // ---------- Moving average ----------

  predicate ByTime(records: seq<Record>) {
    forall i, j | 0 <= i < j < |records| :: records[i].recordedAt <= records[j].recordedAt
  }

  /** Oldest first; records of one instant in any order. */
  ghost predicate SortedFrom(sorted: seq<Record>, records: seq<Record>) {
    ByTime(sorted) && multiset(sorted) == multiset(records)
  }

  /** The moving average of a non-empty series, latest sample last. */
  function Ema(alpha: real, samples: seq<Record>): real
    requires samples != []
  {
    var n := |samples| - 1;
    if n == 0 then samples[0].inUse as real
    else alpha * samples[n].inUse as real + (1.0 - alpha) * Ema(alpha, samples[..n])
  }

  function Flatten(batch: seq<seq<Record>>): seq<Record> {
    if batch == [] then [] else Flatten(batch[..|batch| - 1]) + batch[|batch| - 1]
  }

  function Alpha(config: Config): real
    requires config.emaPeriod != -1
  {
    2.0 / (config.emaPeriod + 1) as real
  }

  /** A value the moving average may take: zero without records, and one for every sorted order. */
  ghost predicate IsEma(config: Config, records: seq<Record>, value: real)
    requires config.emaPeriod != -1
  {
    if records == [] then value == 0.0
    else exists sorted :: sorted != [] && SortedFrom(sorted, records) && value == Ema(Alpha(config), sorted)
  }

  function RecentRecords(config: Config, store: Store, start: int, end: int): seq<Record> {
    Flatten(Batch(store, Windows(start, end, LookbackDays(config, start))))
  }

  method CalculateEMA(config: Config, store: Store, start: int, end: int) returns (value: Option<real>)
    requires config.emaPeriod != -1
    ensures value.None? <==>
      LookbackDays(config, start) != [] && !store.answers(Windows(start, end, LookbackDays(config, start)))
    ensures value.Some? ==> IsEma(config, RecentRecords(config, store, start, end), value.value)
  {
    var ranges := LookbackRanges(config, start, end);
    if |ranges| == 0 { return Some(0.0); }
    if !store.answers(ranges) { return None; }
    var all := FlattenAll(Batch(store, ranges));
    if |all| == 0 { return Some(0.0); }
    var sorted := SortByTime(all);
    assert all[0] in multiset(sorted);
    var ema := MovingAverage(Alpha(config), sorted);
    return Some(ema);
  }

  method FlattenAll(batch: seq<seq<Record>>) returns (all: seq<Record>)
    ensures all == Flatten(batch)
  {
    all := [];
    for i := 0 to |batch|
      invariant all == Flatten(batch[..i])
    {
      assert batch[..i + 1][..i] == batch[..i];
      all := all + batch[i];
    }
    assert batch[..|batch|] == batch;
  }

  /** Starts at the oldest sample and moves towards each later one by the same fraction. */
  method MovingAverage(alpha: real, sorted: seq<Record>) returns (ema: real)
    requires sorted != []
    ensures ema == Ema(alpha, sorted)
  {
    ema := sorted[0].inUse as real;
    for i := 1 to |sorted|
      invariant ema == Ema(alpha, sorted[..i])
    {
      assert sorted[..i + 1][..i] == sorted[..i];
      ema := alpha * sorted[i].inUse as real + (1.0 - alpha) * ema;
    }
    assert sorted[..|sorted|] == sorted;
  }

  method SortByTime(records: seq<Record>) returns (sorted: seq<Record>)
    ensures SortedFrom(sorted, records)
  {
    sorted := [];
    for i := 0 to |records|
      invariant SortedFrom(sorted, records[..i])
    {
      assert records[..i + 1] == records[..i] + [records[i]];
      sorted := InsertByTime(sorted, records[i]);
    }
    assert records[..|records|] == records;
  }

  method InsertByTime(sorted: seq<Record>, r: Record) returns (more: seq<Record>)
    requires ByTime(sorted)
    ensures ByTime(more) && multiset(more) == multiset(sorted) + multiset{r}
  {
    var k := 0;
    while k < |sorted| && sorted[k].recordedAt <= r.recordedAt
      invariant 0 <= k <= |sorted| && forall j | 0 <= j < k :: sorted[j].recordedAt <= r.recordedAt
    {
      k := k + 1;
    }
    InsertedInOrder(sorted, k, r);
    assert sorted == sorted[..k] + sorted[k..];
    return sorted[..k] + ([r] + sorted[k..]);
  }

  lemma {:induction false} InsertedInOrder(sorted: seq<Record>, k: nat, r: Record)
    requires ByTime(sorted) && k <= |sorted|
    requires forall j | 0 <= j < k :: sorted[j].recordedAt <= r.recordedAt
    requires k < |sorted| ==> r.recordedAt <= sorted[k].recordedAt
    ensures ByTime(sorted[..k] + ([r] + sorted[k..]))
  {
    var more := sorted[..k] + ([r] + sorted[k..]);
    forall i, j | 0 <= i < j < |more| ensures more[i].recordedAt <= more[j].recordedAt {
      var x := if i < k then sorted[i] else if i == k then r else sorted[i - 1];
      var y := if j < k then sorted[j] else if j == k then r else sorted[j - 1];
      assert more[i] == x && more[j] == y;
    }
  }

  // ---------- Decayed history ----------

  function Peak(records: seq<Record>): nat {
    if records == [] then 0
    else
      var rest := Peak(records[..|records| - 1]);
      if records[|records| - 1].inUse > rest then records[|records| - 1].inUse else rest
  }

  /** The peak is the largest sample, or zero when none is larger. */
  lemma {:induction false} PeakIsMaximum(records: seq<Record>)
    ensures forall r | r in records :: r.inUse <= Peak(records)
    ensures Peak(records) == 0 || exists r | r in records :: r.inUse == Peak(records)
    decreases |records|
  {
    if records != [] {
      var shorter := records[..|records| - 1];
      PeakIsMaximum(shorter);
      assert forall r | r in records :: r in shorter || r == records[|records| - 1];
    }
  }

  method CalculatePeakUtilization(records: seq<Record>) returns (peak: int)
    ensures peak == Peak(records)
  {
    peak := 0;
    for i := 0 to |records|
      invariant peak == Peak(records[..i])
    {
      assert records[..i + 1][..i] == records[..i];
      if records[i].inUse > peak { peak := records[i].inUse; }
    }
    assert records[..|records|] == records;
  }

  function WeekRanges(start: int, end: int): seq<Range> {
    seq(WEEKS, i requires 0 <= i < WEEKS => Range(start - (i + 1) * SECONDS_PER_WEEK, end - (i + 1) * SECONDS_PER_WEEK))
  }

  /** Total weight of the first n weeks that have records. */
  function Weight(factors: seq<real>, batch: seq<seq<Record>>, n: nat): real
    requires n <= |batch| <= |factors|
  {
    if n == 0 then 0.0
    else Weight(factors, batch, n - 1) + if batch[n - 1] == [] then 0.0 else factors[n - 1]
  }

  function WeightedPeaks(factors: seq<real>, batch: seq<seq<Record>>, n: nat): real
    requires n <= |batch| <= |factors|
  {
    if n == 0 then 0.0
    else WeightedPeaks(factors, batch, n - 1) + Contribution(batch[n - 1], factors[n - 1])
  }

  function Contribution(records: seq<Record>, factor: real): real {
    if records == [] then 0.0 else Peak(records) as real * factor
  }

  function Historical(factors: seq<real>, batch: seq<seq<Record>>): real
    requires |batch| <= |factors|
  {
    var total := Weight(factors, batch, |batch|);
    if total == 0.0 then 0.0 else WeightedPeaks(factors, batch, |batch|) / total
  }

  method CalculateHistoricalWithDecay(config: Config, store: Store, start: int, end: int) returns (value: Option<real>)
    requires |config.weekDecay| == WEEKS
    ensures value.None? <==> !store.answers(WeekRanges(start, end))
    ensures value.Some? ==> value.value == Historical(config.weekDecay, Batch(store, WeekRanges(start, end)))
  {
    var ranges := RangesOfWeeks(start, end);
    if !store.answers(ranges) { return None; }
    var batch := Batch(store, ranges);
    var mean := WeightedMean(config.weekDecay, batch);
    return Some(mean);
  }

  method RangesOfWeeks(start: int, end: int) returns (ranges: seq<Range>)
    ensures ranges == WeekRanges(start, end)
  {
    ranges := [];
    for week := 1 to WEEKS + 1
      invariant |ranges| == week - 1
      invariant forall i | 0 <= i < week - 1 :: ranges[i] == WeekRanges(start, end)[i]
    {
      ranges := ranges + [Range(start - week * SECONDS_PER_WEEK, end - week * SECONDS_PER_WEEK)];
    }
  }

  method WeightedMean(factors: seq<real>, batch: seq<seq<Record>>) returns (mean: real)
    requires |batch| <= |factors|
    ensures mean == Historical(factors, batch)
  {
    var totalWeight, weightedSum := 0.0, 0.0;
    for i := 0 to |batch|
      invariant totalWeight == Weight(factors, batch, i)
      invariant weightedSum == WeightedPeaks(factors, batch, i)
    {
      if |batch[i]| > 0 {
        var peak := CalculatePeakUtilization(batch[i]);
        assert peak as real * factors[i] == Contribution(batch[i], factors[i]);
        weightedSum := weightedSum + peak as real * factors[i];
        totalWeight := totalWeight + factors[i];
      }
    }
    if totalWeight == 0.0 { return 0.0; }
    return weightedSum / totalWeight;
  }

  // ---------- Prediction ----------

  function Combine(config: Config, ema: real, historical: real): real {
    config.emaWeight * ema + (1.0 - config.emaWeight) * historical
  }

  function Ceil(x: real): (n: int)
    ensures n as real - 1.0 < x <= n as real
  {
    -((-x).Floor)
  }

  function Floored(config: Config, base: real): int {
    if Ceil(base) < config.minInstances then config.minInstances else Ceil(base)
  }

  /** A value the prediction may be rounded up from. */
  ghost predicate IsBase(config: Config, store: Store, start: int, end: int, base: real)
    requires config.emaPeriod != -1 && |config.weekDecay| == WEEKS
  {
    var historical := Historical(config.weekDecay, Batch(store, WeekRanges(start, end)));
    if IsWeekend(start) then base == historical
    else exists ema ::
      IsEma(config, RecentRecords(config, store, start, end), ema) && base == Combine(config, ema, historical)
  }

  /** A prediction the code may give. */
  ghost predicate Predicts(config: Config, store: Store, start: int, end: int, prediction: int)
    requires config.emaPeriod != -1 && |config.weekDecay| == WEEKS
  {
    exists base :: IsBase(config, store, start, end, base) && prediction == Floored(config, base)
  }

  method Predict(config: Config, store: Store, start: int, end: int) returns (prediction: Option<int>)
    requires config.emaPeriod != -1 && |config.weekDecay| == WEEKS
    ensures prediction.None? <==>
      || !store.answers(WeekRanges(start, end))
      || (!IsWeekend(start) && LookbackDays(config, start) != [] &&
          !store.answers(Windows(start, end, LookbackDays(config, start))))
    ensures prediction.Some? ==> Predicts(config, store, start, end, prediction.value)
  {
    var historical := CalculateHistoricalWithDecay(config, store, start, end);
    if historical.None? { return None; }
    var base := historical.value;
    if !IsWeekend(start) {
      var ema := CalculateEMA(config, store, start, end);
      if ema.None? { return None; }
      base := Combine(config, ema.value, historical.value);
    }
    assert IsBase(config, store, start, end, base);
    var predicted := Ceil(base);
    if predicted < config.minInstances { predicted := config.minInstances; }
    return Some(predicted);
  }
}
