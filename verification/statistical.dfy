/**
  The statistical anomaly detector: a rolling buffer of the most recent
  values and a four-test ensemble (z-score, IQR fences, modified z-score
  on the median absolute deviation, Grubbs test) run over the buffer each
  time a value arrives.
 */
module StatisticalDetection {
  import opened Wrappers
  import opened Buffers
  import opened Descriptive
  import opened Numerics

  /** Below this many buffered values `detect` returns the quiet verdict. */
  const MinSamples: nat := 10
  /** Scale factor of the modified z-score (the normal quantile 0.75 rounded). */
  const MadScale: real := 0.6745
  /** Significance level of the Grubbs test. */
  const GrubbsAlpha: real := 0.05

  datatype Config = Config(windowSize: nat, zThreshold: real, iqrMultiplier: real)

  const DefaultConfig: Config := Config(100, 3.0, 1.5)

  /** The `details` dictionary of a non-trivial verdict. */
  datatype Details = Details(
    zScore: real,
    modifiedZ: real,
    lowerBound: real,
    upperBound: real,
    grubbsStat: real,
    methodsTriggered: nat)

  /** `(is_anomaly, score, details)`; the cold-start verdict has no details (`{}`). */
  datatype Verdict = Verdict(isAnomaly: bool, score: real, details: Option<Details>)

  const Quiet: Verdict := Verdict(false, 0.0, None)

  /** The statistics and flags of the four sub-tests over one buffer. */
  datatype Tests = Tests(
    zScore: real,
    zFlag: bool,
    lowerBound: real,
    upperBound: real,
    iqrFlag: bool,
    modifiedZ: real,
    madFlag: bool,
    grubbsStat: real,
    grubbsCritical: real,
    grubbsFlag: bool)

  /** numpy's `std` (population standard deviation). */
  function Std(s: seq<real>, num: Numerics): (r: real)
    requires |s| > 0 && ValidNumerics(num)
    ensures r >= 0.0
    ensures (forall i :: 0 <= i < |s| ==> s[i] == s[0]) ==> r == 0.0
  {
    VarianceNonNegative(s);
    assert (forall i :: 0 <= i < |s| ==> s[i] == s[0]) ==> Variance(s) == 0.0 by {
      if forall i :: 0 <= i < |s| ==> s[i] == s[0] {
        VarianceOfConstant(s, s[0]);
      }
    }
    num.sqrt(Variance(s))
  }

  function Flag(b: bool): real
  {
    if b then 1.0 else 0.0
  }

  /** `(value - mean) / (std + 1e-8)`. */
  function ZScore(data: seq<real>, value: real, num: Numerics): (z: real)
    requires |data| > 0 && ValidNumerics(num)
    ensures (forall i :: 0 <= i < |data| ==> data[i] == value) ==> z == 0.0
  {
    assert (forall i :: 0 <= i < |data| ==> data[i] == value) ==> Mean(data) == value by {
      if forall i :: 0 <= i < |data| ==> data[i] == value {
        MeanOfConstant(data, value);
      }
    }
    (value - Mean(data)) / (Std(data, num) + Epsilon)
  }

  /** The IQR fences `(Q1 - k*IQR, Q3 + k*IQR)`. */
  function IqrFences(data: seq<real>, k: real): (f: (real, real))
    requires |data| > 0
    ensures k >= 0.0 ==> f.0 <= f.1
    ensures (forall i :: 0 <= i < |data| ==> data[i] == data[0]) ==> f == (data[0], data[0])
  {
    var q1 := Percentile(data, 25.0);
    var q3 := Percentile(data, 75.0);
    PercentileMonotone(data, 25.0, 75.0);
    var iqr := q3 - q1;
    assert k >= 0.0 ==> k * iqr >= 0.0 by {
      if k >= 0.0 {
        MulNonNegative(k, iqr);
      }
    }
    (q1 - k * iqr, q3 + k * iqr)
  }

  /** The median absolute deviation from the median. */
  function Mad(data: seq<real>): (r: real)
    requires |data| > 0
    ensures r >= 0.0
    ensures (forall i :: 0 <= i < |data| ==> data[i] == data[0]) ==> r == 0.0
  {
    var deviations := AbsDeviations(data, Median(data));
    DeviationsNonNegative(data, Median(data));
    assert (forall i :: 0 <= i < |data| ==> data[i] == data[0]) ==> Median(deviations) == 0.0 by {
      if forall i :: 0 <= i < |data| ==> data[i] == data[0] {
        MadOfConstant(data);
      }
    }
    Median(deviations)
  }

  lemma DeviationsNonNegative(data: seq<real>, c: real)
    requires |data| > 0
    ensures Median(AbsDeviations(data, c)) >= 0.0
  {
    var deviations := AbsDeviations(data, c);
    var i :| 0 <= i < |deviations| && deviations[i] <= Median(deviations);
    assert deviations[i] == Abs(data[i] - c);
  }

  lemma MadOfConstant(data: seq<real>)
    requires |data| > 0
    requires forall i :: 0 <= i < |data| ==> data[i] == data[0]
    ensures Median(AbsDeviations(data, Median(data))) == 0.0
  {
    var c := data[0];
    MedianIsPercentile50(data);
    PercentileOfConstant(data, c, 50.0);
    var deviations := AbsDeviations(data, c);
    assert forall i :: 0 <= i < |deviations| ==> deviations[i] == 0.0;
    MedianIsPercentile50(deviations);
    PercentileOfConstant(deviations, 0.0, 50.0);
  }

  /** `0.6745 * (value - median) / (MAD + 1e-8)`. */
  function ModifiedZ(data: seq<real>, value: real): (z: real)
    requires |data| > 0
    ensures (forall i :: 0 <= i < |data| ==> data[i] == value) ==> z == 0.0
  {
    var deviation := value - Median(data);
    assert (forall i :: 0 <= i < |data| ==> data[i] == value) ==> deviation == 0.0 by {
      if forall i :: 0 <= i < |data| ==> data[i] == value {
        MedianOfConstant(data, value);
      }
    }
    ScaledRatio(MadScale, deviation, Mad(data) + Epsilon)
  }

  /** `c * a / b` for a positive `b`; zero when `a` is. */
  function ScaledRatio(c: real, a: real, b: real): (r: real)
    requires b > 0.0
    ensures a == 0.0 ==> r == 0.0
  {
    c * a / b
  }

  /**
    The Grubbs statistic `max|x - mean| / std` (0 when `std` is 0) and its
    critical value from the Student-t quantile at `1 - alpha/(2n)` with `n - 2`
    degrees of freedom.
   */
  function Grubbs(data: seq<real>, num: Numerics): (g: (real, real))
    requires |data| > 2 && ValidNumerics(num)
    ensures g.0 >= 0.0 && g.1 >= 0.0
    ensures (forall i :: 0 <= i < |data| ==> data[i] == data[0]) ==> g.0 == 0.0
  {
    var std := Std(data, num);
    var stat := if std > 0.0 then MaxAbsDeviation(data, Mean(data)) / std else 0.0;
    var n := |data|;
    var tCrit := if n > 2 then num.tQuantile(1.0 - GrubbsAlpha / (2.0 * n as real), n - 2) else 0.0;
    SquareNonNegative(tCrit);
    var ratio := tCrit * tCrit / ((n - 2) as real + tCrit * tCrit);
    QuotientNonNegative(tCrit * tCrit, (n - 2) as real + tCrit * tCrit);
    SqrtNonNegative(num, ratio);
    var scale := (n - 1) as real / num.sqrt(n as real);
    QuotientNonNegative((n - 1) as real, num.sqrt(n as real));
    MulNonNegative(scale, num.sqrt(ratio));
    (stat, scale * num.sqrt(ratio))
  }

  /** The four sub-tests for the newest value against the buffer that already holds it. */
  function RunTests(data: seq<real>, value: real, cfg: Config, num: Numerics): (t: Tests)
    requires |data| >= MinSamples && cfg.zThreshold > 0.0 && ValidNumerics(num)
    ensures t.zFlag <==> Abs(t.zScore) > cfg.zThreshold
    ensures t.madFlag <==> Abs(t.modifiedZ) > cfg.zThreshold
    ensures t.iqrFlag <==> (value < t.lowerBound || value > t.upperBound)
    ensures t.grubbsFlag <==> t.grubbsStat > t.grubbsCritical
  {
    var z := ZScore(data, value, num);
    var (lower, upper) := IqrFences(data, cfg.iqrMultiplier);
    var modZ := ModifiedZ(data, value);
    var (gStat, gCrit) := Grubbs(data, num);
    Tests(
      z, Abs(z) > cfg.zThreshold,
      lower, upper, value < lower || value > upper,
      modZ, Abs(modZ) > cfg.zThreshold,
      gStat, gCrit, gStat > gCrit)
  }

  /** The weighted combination 0.3 / 0.3 / 0.2 / 0.2, before clamping. */
  function RawScore(t: Tests, cfg: Config): (r: real)
    requires cfg.zThreshold > 0.0
    ensures r >= 0.0
  {
    0.3 * (Abs(t.zScore) / cfg.zThreshold)
    + 0.3 * Flag(t.iqrFlag)
    + 0.2 * (Abs(t.modifiedZ) / cfg.zThreshold)
    + 0.2 * Flag(t.grubbsFlag)
  }

  function Count(b: bool): nat
  {
    if b then 1 else 0
  }

  /** Adding up the four flags counts how many of them are raised. */
  lemma FlagsTriggered(a: bool, b: bool, c: bool, d: bool)
    ensures Count(a) + Count(b) + Count(c) + Count(d) == multiset([a, b, c, d])[true]
  {
  }

  /**
    The verdict for a buffer of at least ten values: the anomaly decision is
    taken on the unclamped score and only the reported score is clamped to 1.
   */
  function Evaluate(data: seq<real>, value: real, cfg: Config, num: Numerics): (v: Verdict)
    requires |data| >= MinSamples && cfg.zThreshold > 0.0 && ValidNumerics(num)
    ensures 0.0 <= v.score <= 1.0
    ensures v.isAnomaly <==> v.score > 0.5
    ensures v.isAnomaly <==> RawScore(RunTests(data, value, cfg, num), cfg) > 0.5
    ensures v.score == Min(RawScore(RunTests(data, value, cfg, num), cfg), 1.0)
    ensures v.details.Some?
    ensures var t := RunTests(data, value, cfg, num);
      && v.details.value.zScore == t.zScore && v.details.value.modifiedZ == t.modifiedZ
      && v.details.value.lowerBound == t.lowerBound && v.details.value.upperBound == t.upperBound
      && v.details.value.grubbsStat == t.grubbsStat
      && v.details.value.methodsTriggered == multiset([t.zFlag, t.iqrFlag, t.madFlag, t.grubbsFlag])[true]
  {
    var t := RunTests(data, value, cfg, num);
    var raw := RawScore(t, cfg);
    FlagsTriggered(t.zFlag, t.iqrFlag, t.madFlag, t.grubbsFlag);
    var details := Details(
      t.zScore, t.modifiedZ, t.lowerBound, t.upperBound, t.grubbsStat,
      Count(t.zFlag) + Count(t.iqrFlag) + Count(t.madFlag) + Count(t.grubbsFlag));
    assert details.methodsTriggered == multiset([t.zFlag, t.iqrFlag, t.madFlag, t.grubbsFlag])[true];
    assert 0.0 <= Min(raw, 1.0) <= 1.0 && (raw > 0.5 <==> Min(raw, 1.0) > 0.5);
    Verdict(raw > 0.5, Min(raw, 1.0), Some(details))
  }

  /** A detector's configuration and its rolling buffer (`deque(maxlen=window_size)`). */
  datatype Detector = Detector(config: Config, history: seq<real>)

  predicate Valid(d: Detector)
  {
    |d.history| <= d.config.windowSize && d.config.zThreshold > 0.0
  }

  function Fresh(cfg: Config): Detector
  {
    Detector(cfg, [])
  }

  /** `detect(value)`: buffer the value, then judge it unless the buffer is still short. */
  function Detect(d: Detector, value: real, num: Numerics): (res: (Detector, Verdict))
    requires Valid(d) && ValidNumerics(num)
    ensures Valid(res.0) && res.0.config == d.config
    ensures res.0.history == LastN(d.history + [value], d.config.windowSize)
    ensures |res.0.history| < MinSamples ==> res.1 == Quiet
    ensures |res.0.history| >= MinSamples ==> res.1 == Evaluate(res.0.history, value, d.config, num)
    ensures 0.0 <= res.1.score <= 1.0 && (res.1.isAnomaly <==> res.1.score > 0.5)
  {
    var history := Push(d.history, d.config.windowSize, value);
    var d' := d.(history := history);
    if |history| < MinSamples then (d', Quiet)
    else (d', Evaluate(history, value, d.config, num))
  }

  /** Feeds `values` one by one, collecting the verdicts in order. */
  function Run(d: Detector, values: seq<real>, num: Numerics): (res: (Detector, seq<Verdict>))
    requires Valid(d) && ValidNumerics(num)
    ensures Valid(res.0) && res.0.config == d.config
    ensures |res.1| == |values|
    ensures forall i :: 0 <= i < |values| ==>
      0.0 <= res.1[i].score <= 1.0 && (res.1[i].isAnomaly <==> res.1[i].score > 0.5)
  {
    if |values| == 0 then (d, [])
    else
      var prev := Run(d, values[..|values| - 1], num);
      var next := Detect(prev.0, values[|values| - 1], num);
      (next.0, prev.1 + [next.1])
  }

  /** The buffer never exceeds the window and always holds the newest values. */
  lemma {:induction false} RunKeepsNewest(d: Detector, values: seq<real>, num: Numerics)
    requires Valid(d) && ValidNumerics(num)
    ensures Run(d, values, num).0.history == LastN(d.history + values, d.config.windowSize)
  {
    var w := d.config.windowSize;
    if |values| == 0 {
      assert d.history + values == d.history;
    } else {
      var init, last := values[..|values| - 1], values[|values| - 1];
      assert d.history + init + [last] == d.history + values;
      var prev := Run(d, init, num).0;
      assert Run(d, values, num).0 == Detect(prev, last, num).0;
      RunKeepsNewest(d, init, num);
      PushLastN(d.history + init, w, last);
    }
  }

  /** The `i`-th verdict of a run is the one the detector gave after the first `i` values. */
  lemma {:induction false} RunVerdict(d: Detector, values: seq<real>, num: Numerics, i: nat)
    requires Valid(d) && ValidNumerics(num) && i < |values|
    ensures Run(d, values, num).1[i] == Detect(Run(d, values[..i], num).0, values[i], num).1
  {
    var init := values[..|values| - 1];
    var prev := Run(d, init, num);
    var next := Detect(prev.0, values[|values| - 1], num);
    assert Run(d, values, num) == (next.0, prev.1 + [next.1]);
    assert |prev.1| == |init|;
    if i < |values| - 1 {
      assert Run(d, values, num).1[i] == prev.1[i];
      assert init[..i] == values[..i];
      RunVerdict(d, init, num, i);
    } else {
      assert Run(d, values, num).1[i] == next.1;
      assert init == values[..i];
    }
  }

  /** Cold start: the first nine verdicts of a fresh detector are `(False, 0.0, {})`. */
  lemma ColdStartIsQuiet(cfg: Config, values: seq<real>, num: Numerics, i: nat)
    requires cfg.zThreshold > 0.0 && ValidNumerics(num)
    requires i < |values| && i + 1 < MinSamples
    ensures Run(Fresh(cfg), values, num).1[i] == Quiet
  {
    RunVerdict(Fresh(cfg), values, num, i);
    RunKeepsNewest(Fresh(cfg), values[..i], num);
  }

  /** A buffer of identical values (zero spread, zero MAD) is never anomalous and scores 0. */
  lemma ConstantBufferIsQuiet(data: seq<real>, c: real, cfg: Config, num: Numerics)
    requires |data| >= MinSamples && cfg.zThreshold > 0.0 && ValidNumerics(num)
    requires forall i :: 0 <= i < |data| ==> data[i] == c
    ensures !Evaluate(data, c, cfg, num).isAnomaly
    ensures Evaluate(data, c, cfg, num).score == 0.0
    ensures Evaluate(data, c, cfg, num).details.value.methodsTriggered == 0
  {
    var t := RunTests(data, c, cfg, num);
    assert t.zScore == 0.0 && t.modifiedZ == 0.0;
    assert (t.lowerBound, t.upperBound) == IqrFences(data, cfg.iqrMultiplier);
    assert !t.iqrFlag;
    assert !t.grubbsFlag;
    assert RawScore(t, cfg) == 0.0;
  }

  /** The series `[10] * 20 + [100]`: twenty readings of 10 followed by one reading of 100. */
  predicate IsSpikeSeries(s: seq<real>)
  {
    |s| == 21 && s[20] == 100.0 && forall i :: 0 <= i < 20 ==> s[i] == 10.0
  }

  lemma SpikeMedian(values: seq<real>)
    requires IsSpikeSeries(values)
    ensures Median(values) == 10.0
  {
    assert Sorted(values);
    SortOfSorted(values);
  }

  lemma SpikeMad(values: seq<real>)
    requires IsSpikeSeries(values)
    ensures Mad(values) == 0.0
  {
    SpikeMedian(values);
    var deviations := AbsDeviations(values, 10.0);
    assert forall i :: 0 <= i < 20 ==> deviations[i] == 0.0;
    assert deviations[20] == 90.0;
    assert Sorted(deviations);
    SortOfSorted(deviations);
    assert Median(deviations) == 0.0;
  }

  lemma SpikeUpperFence(values: seq<real>)
    requires IsSpikeSeries(values)
    ensures IqrFences(values, 1.5).1 == 10.0
  {
    assert Sorted(values);
    SortOfSorted(values);
    assert PercentilePosition(21, 25.0) == 5.0;
    assert PercentilePosition(21, 75.0) == 15.0;
    InterpolateAtWhole(values, 5);
    InterpolateAtWhole(values, 15);
    assert Percentile(values, 25.0) == 10.0;
    assert Percentile(values, 75.0) == 10.0;
  }

  /** The last verdict of a run is the buffer-judgement of the whole run when the window holds it all. */
  lemma LastVerdictOfShortRun(cfg: Config, values: seq<real>, num: Numerics)
    requires cfg.zThreshold > 0.0 && ValidNumerics(num)
    requires MinSamples <= |values| <= cfg.windowSize
    ensures Run(Fresh(cfg), values, num).1[|values| - 1] == Evaluate(values, values[|values| - 1], cfg, num)
  {
    var n := |values|;
    var d := Fresh(cfg);
    var init := values[..n - 1];
    assert init + [values[n - 1]] == values;
    assert d.history + init == init;
    RunVerdict(d, values, num, n - 1);
    RunKeepsNewest(d, init, num);
    var before := Run(d, init, num).0;
    assert before.history == init;
    var after := Detect(before, values[n - 1], num);
    assert after.0.history == values;
  }

  /** Twenty readings of 10 followed by one reading of 100: the last one is flagged with a score above 0.5. */
  lemma SpikeIsFlagged(values: seq<real>, num: Numerics)
    requires IsSpikeSeries(values) && ValidNumerics(num)
    ensures Run(Fresh(DefaultConfig), values, num).1[20].isAnomaly
    ensures Run(Fresh(DefaultConfig), values, num).1[20].score > 0.5
  {
    LastVerdictOfShortRun(DefaultConfig, values, num);
    SpikeMedian(values);
    SpikeMad(values);
    SpikeUpperFence(values);
    var t := RunTests(values, 100.0, DefaultConfig, num);
    assert t.modifiedZ == MadScale * 90.0 / Epsilon;
    assert t.iqrFlag;
    assert RawScore(t, DefaultConfig) > 0.5;
  }
}
