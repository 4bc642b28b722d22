/**
  The reconstruction-residual detector (an autoencoder stand-in). Its
  residuals are random draws, so they are inputs here: the exponential
  draws of `fit` and the uniform multipliers of `detect`. What is modelled
  is the threshold calibration, the threshold latch on the first `detect`,
  and the scoring `clip(residual / (threshold + 1e-8), 0, 2)` with the
  label `residual / (threshold + 1e-8) > 1`.
 */
module Reconstruction {
  import opened Wrappers
  import opened Descriptive

  /** Scores are clipped to [0, MaxScore]. */
  const MaxScore: real := 2.0
  /** `detect` without a threshold calibrates on this percentile, whatever was configured. */
  const DetectPercentile: real := 95.0

  datatype Detector = Detector(thresholdPercentile: real, threshold: Option<real>)

  predicate Valid(d: Detector)
  {
    && 0.0 <= d.thresholdPercentile <= 100.0
    && (d.threshold.Some? ==> d.threshold.value >= 0.0)
  }

  function Fresh(thresholdPercentile: real): (d: Detector)
    requires 0.0 <= thresholdPercentile <= 100.0
    ensures Valid(d) && d.threshold.None?
  {
    Detector(thresholdPercentile, None)
  }

  predicate NonNegative(s: seq<real>)
  {
    forall i :: 0 <= i < |s| ==> s[i] >= 0.0
  }

  /** A percentile of non-negative values is non-negative. */
  lemma PercentileNonNegative(s: seq<real>, p: real)
    requires |s| > 0 && 0.0 <= p <= 100.0 && NonNegative(s)
    ensures Percentile(s, p) >= 0.0
  {
    var i :| 0 <= i < |s| && s[i] <= Percentile(s, p);
  }

  /**
    `fit(X)` with `errors` the simulated reconstruction errors drawn for `X`
    (non-negative exponential draws, one per sample): the threshold becomes
    their configured percentile. numpy raises on an empty sample.
   */
  function Fit(d: Detector, errors: seq<real>): (out: Outcome<Detector>)
    requires Valid(d) && NonNegative(errors)
    ensures out.Raised? <==> |errors| == 0
    ensures out.Returned? ==> Valid(out.value) && out.value.threshold.Some?
    ensures out.Returned? ==> exists i :: 0 <= i < |errors| && errors[i] <= out.value.threshold.value
    ensures out.Returned? ==> exists j :: 0 <= j < |errors| && out.value.threshold.value <= errors[j]
    ensures out.Returned? ==> out.value.threshold == Some(Percentile(errors, d.thresholdPercentile))
    ensures out.Returned? ==> out.value.thresholdPercentile == d.thresholdPercentile
  {
    if |errors| == 0 then Raised("percentile of an empty sample")
    else
      var t := Percentile(errors, d.thresholdPercentile);
      PercentileNonNegative(errors, d.thresholdPercentile);
      Returned(d.(threshold := Some(t)))
  }

  /**
    Calibrating on the same errors with a higher configured percentile
    never gives a lower threshold, so fewer training points lie above it.
   */
  lemma FitThresholdMonotone(d1: Detector, d2: Detector, errors: seq<real>)
    requires Valid(d1) && Valid(d2) && NonNegative(errors) && |errors| > 0
    requires d1.thresholdPercentile <= d2.thresholdPercentile
    ensures Fit(d1, errors).value.threshold.value <= Fit(d2, errors).value.threshold.value
  {
    PercentileMonotone(errors, d1.thresholdPercentile, d2.thresholdPercentile);
  }

  /** `abs(diff(x, prepend=x[0])) * u`: the simulated residual of each point. */
  function Residuals(x: seq<real>, u: seq<real>): (r: seq<real>)
    requires |x| == |u| && NonNegative(u)
    ensures |r| == |x| && NonNegative(r)
    ensures |x| > 0 ==> r[0] == 0.0
  {
    seq(|x|, i requires 0 <= i < |x| =>
      var step := Abs(x[i] - (if i == 0 then x[0] else x[i - 1]));
      assert step * u[i] >= 0.0 by {
        assert step >= 0.0 && u[i] >= 0.0;
        MulNonNegative(step, u[i]);
      }
      step * u[i])
  }

  function Clip(v: real, lo: real, hi: real): real
    requires lo <= hi
  {
    if v < lo then lo else if v > hi then hi else v
  }

  /** `residual / (threshold + 1e-8)` clipped to [0, 2]; clipping keeps the `> 1` test intact. */
  function Score(residual: real, threshold: real): (s: real)
    requires residual >= 0.0 && threshold >= 0.0
    ensures 0.0 <= s <= MaxScore
    ensures s > 1.0 <==> residual / (threshold + Epsilon) > 1.0
  {
    QuotientNonNegative(residual, threshold + Epsilon);
    Clip(residual / (threshold + Epsilon), 0.0, MaxScore)
  }

  /** `is_anomaly` for one point: the unclipped ratio exceeds 1. */
  function Label(residual: real, threshold: real): (k: int)
    requires residual >= 0.0 && threshold >= 0.0
    ensures k == 1 <==> Score(residual, threshold) > 1.0
    ensures k == 0 <==> Score(residual, threshold) <= 1.0
  {
    if residual / (threshold + Epsilon) > 1.0 then 1 else 0
  }

  /**
    `detect(X)` with `u` the uniform multipliers drawn for `X`. A detector
    without a threshold latches the 95th percentile of this batch's
    residuals. numpy raises on an empty `X`.
   */
  function Detect(d: Detector, x: seq<real>, u: seq<real>): (out: Outcome<(Detector, seq<int>, seq<real>)>)
    requires Valid(d) && |u| == |x|
    requires forall i :: 0 <= i < |u| ==> 0.5 <= u[i] <= 1.5
    ensures out.Raised? <==> |x| == 0
    ensures out.Returned? ==> Valid(out.value.0) && out.value.0.threshold.Some?
    ensures out.Returned? && d.threshold.Some? ==> out.value.0 == d
    ensures out.Returned? && d.threshold.None? ==>
      out.value.0.threshold == Some(Percentile(Residuals(x, u), DetectPercentile))
    ensures out.Returned? ==> |out.value.1| == |x| && |out.value.2| == |x|
    ensures out.Returned? ==> forall i :: 0 <= i < |x| ==>
      && out.value.2[i] == Score(Residuals(x, u)[i], out.value.0.threshold.value)
      && out.value.1[i] == Label(Residuals(x, u)[i], out.value.0.threshold.value)
  {
    if |x| == 0 then Raised("index 0 of an empty series")
    else
      var residuals := Residuals(x, u);
      var t := match d.threshold
        case Some(t) => t
        case None => Percentile(residuals, DetectPercentile);
      assert t >= 0.0 by {
        if d.threshold.None? {
          PercentileNonNegative(residuals, DetectPercentile);
        }
      }
      var labels := seq(|x|, i requires 0 <= i < |x| => Label(residuals[i], t));
      var scores := seq(|x|, i requires 0 <= i < |x| => Score(residuals[i], t));
      Returned((d.(threshold := Some(t)), labels, scores))
  }

  /** Every score lies in [0, 2]; a point is flagged exactly when its score exceeds 1; the first point never is. */
  lemma DetectScoresAndLabels(d: Detector, x: seq<real>, u: seq<real>, i: nat)
    requires Valid(d) && |u| == |x| && i < |x|
    requires forall k :: 0 <= k < |u| ==> 0.5 <= u[k] <= 1.5
    ensures var out := Detect(d, x, u).value;
      && 0.0 <= out.2[i] <= MaxScore
      && (out.1[i] == 1 <==> out.2[i] > 1.0)
      && (out.1[i] == 0 <==> out.2[i] <= 1.0)
      && out.1[0] == 0 && out.2[0] == 0.0
  {
  }

  /**
    The first `detect` latches its threshold, so running it again on the
    same batch reproduces the same labels and scores.
   */
  lemma RepeatDetectIsStable(d: Detector, x: seq<real>, u: seq<real>)
    requires Valid(d) && |u| == |x| > 0
    requires forall i :: 0 <= i < |u| ==> 0.5 <= u[i] <= 1.5
    ensures var first := Detect(d, x, u).value;
      Detect(first.0, x, u) == Returned(first)
  {
    var first := Detect(d, x, u).value;
    assert first.0.threshold.Some?;
    assert first.0 == d.(threshold := first.0.threshold);
  }

  /** Below a latched threshold a larger residual never earns a smaller score. */
  lemma ScoreMonotoneInResidual(d: Detector, x: seq<real>, u: seq<real>, i: nat, j: nat)
    requires Valid(d) && d.threshold.Some? && |u| == |x|
    requires forall k :: 0 <= k < |u| ==> 0.5 <= u[k] <= 1.5
    requires i < |x| && j < |x| && Residuals(x, u)[i] <= Residuals(x, u)[j]
    ensures Detect(d, x, u).value.2[i] <= Detect(d, x, u).value.2[j]
    ensures Detect(d, x, u).value.1[i] <= Detect(d, x, u).value.1[j]
  {
    var r := Residuals(x, u);
    QuotientMonotone(r[i], r[j], d.threshold.value + Epsilon);
  }

  lemma QuotientMonotone(a: real, b: real, c: real)
    requires a <= b && c > 0.0
    ensures a / c <= b / c
  {
  }
}
