/**
  The rule-based regime labels of the multivariate dataset: thresholds at
  the 65th/35th percentiles of the returns and the 75th/25th percentiles of
  the rolling volatility, then a four-way cascade per point (3 high
  volatility, 0 bullish momentum, 1 bearish decline, 2 consolidation);
  series shorter than ten points are labelled 0 throughout.
 */
module RuleLabeller {
  import opened Descriptive

  /** Below this many points every label is 0. */
  const MinPoints: nat := 10

  const HighVolatility: nat := 3
  const BullishMomentum: nat := 0
  const BearishDecline: nat := 1
  const Consolidation: nat := 2

  datatype Thresholds = Thresholds(retHigh: real, retLow: real, volHigh: real, volLow: real)

  /** `np.quantile` at 0.65 / 0.35 of the returns and 0.75 / 0.25 of the volatility. */
  function DeriveThresholds(rets: seq<real>, volatility: seq<real>): (th: Thresholds)
    requires |rets| > 0 && |volatility| > 0
    ensures th.retLow <= th.retHigh && th.volLow <= th.volHigh
    ensures exists j :: 0 <= j < |volatility| && th.volHigh <= volatility[j]
    ensures exists j :: 0 <= j < |rets| && th.retHigh <= rets[j]
  {
    PercentileMonotone(rets, 35.0, 65.0);
    PercentileMonotone(volatility, 25.0, 75.0);
    Thresholds(Percentile(rets, 65.0), Percentile(rets, 35.0),
               Percentile(volatility, 75.0), Percentile(volatility, 25.0))
  }

  /** The cascade for one point with return `r` and volatility `v`. */
  function Label(r: real, v: real, th: Thresholds): (k: nat)
    ensures k <= 3
    ensures k == HighVolatility <==> v >= th.volHigh
    ensures k == BullishMomentum ==> v < th.volHigh && r >= th.retHigh
    ensures k == BearishDecline ==> v < th.volHigh && r <= th.retLow && v >= th.volLow
    ensures v < th.volHigh && r >= th.retHigh ==> k == BullishMomentum
  {
    if v >= th.volHigh then HighVolatility
    else if r >= th.retHigh && v <= th.volHigh then BullishMomentum
    else if r <= th.retLow && v >= th.volLow then BearishDecline
    else Consolidation
  }

  /**
    Below the high-volatility threshold the labels depend only on where the
    return and volatility fall: the `v <= vol_high` test of the bullish rule
    never decides anything. The bearish rule's implicit `r < ret_high`
    decides only when the two return thresholds tie (flat returns); then
    the bearish region is `r < ret_low`.
   */
  lemma LabelRegions(r: real, v: real, th: Thresholds)
    requires th.retLow <= th.retHigh
    ensures Label(r, v, th) == BullishMomentum <==> v < th.volHigh && r >= th.retHigh
    ensures Label(r, v, th) == BearishDecline <==>
      v < th.volHigh && r <= th.retLow && r < th.retHigh && v >= th.volLow
    ensures Label(r, v, th) == Consolidation <==>
      v < th.volHigh && (th.retLow < r < th.retHigh || (v < th.volLow && r <= th.retLow && r < th.retHigh))
    ensures th.retLow < th.retHigh ==>
      (Label(r, v, th) == BearishDecline <==> v < th.volHigh && r <= th.retLow && v >= th.volLow)
  {
  }

  /** The `regimes` column for aligned return and volatility series (one entry per price). */
  function Labels(rets: seq<real>, volatility: seq<real>): (labels: seq<nat>)
    requires |rets| == |volatility|
    ensures |labels| == |rets|
    ensures |rets| < MinPoints ==> forall i :: 0 <= i < |labels| ==> labels[i] == 0
    ensures |rets| >= MinPoints ==>
      var th := DeriveThresholds(rets, volatility);
      forall i :: 0 <= i < |labels| ==> labels[i] == Label(rets[i], volatility[i], th)
  {
    if |rets| < MinPoints then seq(|rets|, _ => 0)
    else
      var th := DeriveThresholds(rets, volatility);
      seq(|rets|, i requires 0 <= i < |rets| => Label(rets[i], volatility[i], th))
  }

  /** In a long enough series the most volatile point is always labelled high volatility. */
  lemma MostVolatileIsHighVolatility(rets: seq<real>, volatility: seq<real>, i: nat)
    requires |rets| == |volatility| >= MinPoints && i < |volatility|
    requires forall j :: 0 <= j < |volatility| ==> volatility[j] <= volatility[i]
    ensures Labels(rets, volatility)[i] == HighVolatility
  {
    var th := DeriveThresholds(rets, volatility);
    var j :| 0 <= j < |volatility| && th.volHigh <= volatility[j];
  }

  /** Constant volatility puts every point of a long series in the high-volatility regime. */
  lemma ConstantVolatilityIsAllHighVolatility(rets: seq<real>, volatility: seq<real>, c: real, i: nat)
    requires |rets| == |volatility| >= MinPoints && i < |volatility|
    requires forall j :: 0 <= j < |volatility| ==> volatility[j] == c
    ensures Labels(rets, volatility)[i] == HighVolatility
  {
    PercentileOfConstant(volatility, c, 75.0);
  }
}
