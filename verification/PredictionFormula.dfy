/** What a prediction is made of: which days it looks at, how it weighs them, and how it rounds. */
module PredictionFormula {
  import opened Predictor
  import opened EmaLaws

  // ---------- Days ----------

  /** The calendar: the first of January 2024 (UTC) was a Monday. */
  lemma {:induction false} WeekendIff(day: int, second: int)
    requires 0 <= second < 86400
    ensures IsWeekend(1704067200 + day * 86400 + second) <==> day % 7 == 5 || day % 7 == 6
  {
    assert Day(1704067200 + day * 86400 + second) == 19723 + day;
  }

  /** The weekly history is that of the same window one, two and three weeks earlier. */
  lemma {:induction false} WeeksBack(start: int, end: int, i: nat)
    requires i < 3
    ensures |WeekRanges(start, end)| == 3
    ensures
      var r := WeekRanges(start, end)[i];
      && r.end - r.start == end - start && Day(r.start) == Day(start) - 7 * (i + 1)
      && Weekday(Day(r.start)) == Weekday(Day(start)) && r.start % 86400 == start % 86400
  {
  }

  // ---------- Moving average ----------

  /** With a period of one only the latest sample counts. */
  lemma {:induction false} PeriodOneIsLatest(config: Config, samples: seq<Record>)
    requires config.emaPeriod == 1 && samples != []
    ensures Ema(Alpha(config), samples) == samples[|samples| - 1].inUse as real
  {
    assert Alpha(config) == 1.0;
  }

  /** The share given to the latest sample against all earlier ones: samples are on average half a
      period old. */
  lemma {:induction false} PeriodIsTwiceTheAge(config: Config)
    requires config.emaPeriod >= 1
    ensures (1.0 - Alpha(config)) * 2.0 == Alpha(config) * (config.emaPeriod - 1) as real
    ensures 0.0 < Alpha(config) <= 1.0
  {
    var n := config.emaPeriod as real;
    assert Alpha(config) * (n + 1.0) == 2.0;
  }

  // ---------- History ----------

  function Counted(factor: real, records: seq<Record>): real {
    if records == [] then 0.0 else factor
  }

  function Pull(factor: real, records: seq<Record>): real {
    if records == [] then 0.0 else factor * Peak(records) as real
  }

  /** The weighted mean of three weekly peaks. A week without records does not count. */
  function ThreeWeeks(f: seq<real>, weeks: seq<seq<Record>>): real
    requires |f| == |weeks| == 3
  {
    var total := Counted(f[0], weeks[0]) + Counted(f[1], weeks[1]) + Counted(f[2], weeks[2]);
    if total == 0.0 then 0.0
    else (Pull(f[0], weeks[0]) + Pull(f[1], weeks[1]) + Pull(f[2], weeks[2])) / total
  }

  lemma {:induction false} PullIsContribution(factor: real, records: seq<Record>)
    ensures Contribution(records, factor) == Pull(factor, records)
  {
  }

  lemma {:induction false} ThreeWeights(f: seq<real>, weeks: seq<seq<Record>>)
    requires |f| == |weeks| == 3
    ensures Weight(f, weeks, 3) == Counted(f[0], weeks[0]) + Counted(f[1], weeks[1]) + Counted(f[2], weeks[2])
  {
    assert Weight(f, weeks, 1) == Counted(f[0], weeks[0]);
    assert Weight(f, weeks, 2) == Weight(f, weeks, 1) + Counted(f[1], weeks[1]);
  }

  lemma {:induction false} ThreePeaks(f: seq<real>, weeks: seq<seq<Record>>)
    requires |f| == |weeks| == 3
    ensures WeightedPeaks(f, weeks, 3) == Pull(f[0], weeks[0]) + Pull(f[1], weeks[1]) + Pull(f[2], weeks[2])
  {
    PullIsContribution(f[0], weeks[0]);
    PullIsContribution(f[1], weeks[1]);
    PullIsContribution(f[2], weeks[2]);
    assert WeightedPeaks(f, weeks, 1) == Contribution(weeks[0], f[0]);
    assert WeightedPeaks(f, weeks, 2) == WeightedPeaks(f, weeks, 1) + Contribution(weeks[1], f[1]);
  }

  lemma {:induction false} HistoryOfThreeWeeks(f: seq<real>, weeks: seq<seq<Record>>)
    requires |f| == |weeks| == 3
    ensures Historical(f, weeks) == ThreeWeeks(f, weeks)
  {
    ThreeWeights(f, weeks);
    ThreePeaks(f, weeks);
  }

  // ---------- Predictions ----------

  /** The least number of instances that is neither below this value nor below the minimum. */
  predicate Rounds(prediction: int, base: real, least: int) {
    && prediction >= least && prediction as real >= base
    && (prediction == least || prediction as real < base + 1.0)
  }

  lemma {:induction false} RoundsOnce(p: int, q: int, base: real, least: int)
    requires Rounds(p, base, least) && Rounds(q, base, least)
    ensures p == q
  {
  }

  /** The two values a weekday prediction mixes. */
  lemma {:induction false} MixedByWeight(config: Config, ema: real, history: real)
    ensures Combine(config, ema, history) == config.emaWeight * ema + (1.0 - config.emaWeight) * history
    ensures config.emaWeight == 1.0 ==> Combine(config, ema, history) == ema
    ensures config.emaWeight == 0.0 ==> Combine(config, ema, history) == history
  {
  }

  lemma {:induction false} MovedByWeight(config: Config, a: real, b: real, history: real)
    ensures Combine(config, b, history) - Combine(config, a, history) == config.emaWeight * (b - a)
  {
    assert config.emaWeight * (b - a) == config.emaWeight * b - config.emaWeight * a;
  }

  function History(config: Config, store: Store, start: int, end: int): real
    requires |config.weekDecay| == 3
  {
    ThreeWeeks(config.weekDecay, Batch(store, WeekRanges(start, end)))
  }

  lemma {:induction false} FlooredRounds(config: Config, base: real)
    ensures Rounds(Floored(config, base), base, config.minInstances)
  {
  }

  /** On a weekend a prediction is the history, rounded up and floored, whatever the recent samples. */
  lemma {:induction false} WeekendPrediction(config: Config, store: Store, start: int, end: int, prediction: int)
    requires config.emaPeriod != -1 && |config.weekDecay| == 3 && IsWeekend(start)
    requires Predicts(config, store, start, end, prediction)
    ensures Rounds(prediction, History(config, store, start, end), config.minInstances)
  {
    HistoryOfThreeWeeks(config.weekDecay, Batch(store, WeekRanges(start, end)));
    FlooredRounds(config, History(config, store, start, end));
  }

  /** The prediction mixes the moving average, by its weight, with the history, by the rest. */
  predicate Mixes(config: Config, ema: real, history: real, prediction: int) {
    var w := config.emaWeight;
    && Rounds(prediction, w * ema + (1.0 - w) * history, config.minInstances)
    && (w == 1.0 ==> Rounds(prediction, ema, config.minInstances))
    && (w == 0.0 ==> Rounds(prediction, history, config.minInstances))
  }

  lemma {:induction false} CombinedMixes(config: Config, ema: real, history: real)
    ensures Mixes(config, ema, history, Floored(config, Combine(config, ema, history)))
  {
    FlooredRounds(config, Combine(config, ema, history));
    MixedByWeight(config, ema, history);
  }

  lemma {:induction false} AverageOf(config: Config, store: Store, start: int, end: int, base: real) returns (ema: real)
    requires config.emaPeriod != -1 && |config.weekDecay| == 3 && !IsWeekend(start)
    requires IsBase(config, store, start, end, base)
    ensures IsEma(config, RecentRecords(config, store, start, end), ema)
    ensures base == Combine(config, ema, Historical(config.weekDecay, Batch(store, WeekRanges(start, end))))
  {
    ema :| IsEma(config, RecentRecords(config, store, start, end), ema) &&
      base == Combine(config, ema, Historical(config.weekDecay, Batch(store, WeekRanges(start, end))));
  }

  /** On a weekday it mixes some moving average of the recent samples with the history. */
  lemma {:induction false} WeekdayPrediction(config: Config, store: Store, start: int, end: int, prediction: int)
    returns (ema: real)
    requires config.emaPeriod != -1 && |config.weekDecay| == 3 && !IsWeekend(start)
    requires Predicts(config, store, start, end, prediction)
    ensures IsEma(config, RecentRecords(config, store, start, end), ema)
    ensures Mixes(config, ema, History(config, store, start, end), prediction)
  {
    var base :| IsBase(config, store, start, end, base) && prediction == Floored(config, base);
    ema := AverageOf(config, store, start, end, base);
    HistoryOfThreeWeeks(config.weekDecay, Batch(store, WeekRanges(start, end)));
    CombinedMixes(config, ema, History(config, store, start, end));
  }

  predicate MovesBy(weight: real, a: real, b: real, x: real, y: real) {
    y - x == weight * (b - a)
  }

  /** With the same history, the value a weekday prediction is rounded from follows the moving average
      by exactly its weight. */
  lemma {:induction false} BaseFollowsAverage(config: Config, one: Store, other: Store, start: int, end: int, x: real,
                                              y: real)
    returns (a: real, b: real)
    requires config.emaPeriod != -1 && |config.weekDecay| == 3 && !IsWeekend(start)
    requires IsBase(config, one, start, end, x) && IsBase(config, other, start, end, y)
    requires Batch(one, WeekRanges(start, end)) == Batch(other, WeekRanges(start, end))
    ensures IsEma(config, RecentRecords(config, one, start, end), a)
    ensures IsEma(config, RecentRecords(config, other, start, end), b)
    ensures MovesBy(config.emaWeight, a, b, x, y)
  {
    a := AverageOf(config, one, start, end, x);
    b := AverageOf(config, other, start, end, y);
    MovedByWeight(config, a, b, Historical(config.weekDecay, Batch(one, WeekRanges(start, end))));
  }
}
