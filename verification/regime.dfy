/**
  The market regime detector: rolling-window return features (mean,
  volatility, skewness, kurtosis), a Gaussian mixture fitted on them once
  enough windows exist, and a report on the newest window naming the most
  probable regime together with its probability.
 */
module RegimeDetection {
  import opened Wrappers
  import opened Buffers
  import opened Descriptive
  import opened Decimal

  /** The default feature window of `extract_features` and `detect_regime`. */
  const DefaultWindow: nat := 20
  /** `fit` needs this many feature rows per regime. */
  const RowsPerRegime: nat := 10
  /** `detect_regime` looks at this many points beyond the window. */
  const Lookback: nat := 10

  /** One row of `extract_features`: mean, `np.std`, `stats.skew` and `stats.kurtosis` of a window of returns. */
  datatype FeatureRow = FeatureRow(meanReturn: real, volatility: real, skewness: real, kurtosis: real)

  /**
    The numpy/scipy/scikit-learn collaborators: `change(p, q)` is one
    element of `np.diff(data) / data[:-1]` (IEEE division included);
    `summarize(w)` is the feature row of a window of returns;
    `posterior(train, row)` is `predict_proba` of the mixture fitted on
    the scaled `train` rows, for the scaled `row`.
   */
  datatype Oracles = Oracles(
    change: (real, real) -> real,
    summarize: seq<real> -> FeatureRow,
    posterior: (seq<FeatureRow>, FeatureRow) -> seq<real>)

  /** A mixture's posterior is a probability vector over the `n` components. */
  ghost predicate ValidOracles(o: Oracles, n: nat)
  {
    forall train, row ::
      && |o.posterior(train, row)| == n
      && Sum(o.posterior(train, row)) == 1.0
      && (forall k :: 0 <= k < n ==> 0.0 <= o.posterior(train, row)[k])
  }

  /** The detector's state: `fitted`, and the feature rows the mixture was last fitted on. */
  datatype Detector = Detector(nRegimes: nat, fitted: bool, trainedOn: seq<FeatureRow>)

  predicate Valid(d: Detector)
  {
    d.nRegimes >= 1
  }

  function Fresh(nRegimes: nat): (d: Detector)
    ensures d.nRegimes == nRegimes && !d.fitted
  {
    Detector(nRegimes, false, [])
  }

  /** `np.diff(data) / data[:-1]`: one relative change per consecutive pair. */
  function Returns(data: seq<real>, o: Oracles): (r: seq<real>)
    ensures |r| == if |data| == 0 then 0 else |data| - 1
    ensures forall i :: 0 <= i < |r| ==> r[i] == o.change(data[i], data[i + 1])
  {
    if |data| == 0 then [] else seq(|data| - 1, i requires 0 <= i < |data| - 1 => o.change(data[i], data[i + 1]))
  }

  /**
    `extract_features(data, window)`: None below `window` points; otherwise
    one row for every `i` in `range(window, len(returns) + 1)`, summarising
    `returns[i - window:i]`.
   */
  function ExtractFeatures(data: seq<real>, window: nat, o: Oracles): (rows: Option<seq<FeatureRow>>)
    ensures rows.None? <==> |data| < window
    ensures rows.Some? && |data| > 0 ==> |rows.value| == |data| - window
    ensures rows.Some? && |data| == 0 ==> |rows.value| == 1
    ensures rows.Some? ==> forall j :: 0 <= j < |rows.value| ==>
      && j + window <= |Returns(data, o)|
      && rows.value[j] == o.summarize(Returns(data, o)[j..j + window])
  {
    if |data| < window then None
    else
      var changes := Returns(data, o);
      Some(seq(|changes| + 1 - window, j requires 0 <= j < |changes| + 1 - window =>
        o.summarize(changes[j..j + window])))
  }

  /** `fit(data)`: succeeds only with at least ten feature rows (window 20) per regime. */
  function Fit(d: Detector, data: seq<real>, o: Oracles): (res: (Detector, bool))
    requires Valid(d)
    ensures Valid(res.0) && res.0.nRegimes == d.nRegimes
    ensures res.1 <==> |data| >= DefaultWindow && |data| - DefaultWindow >= d.nRegimes * RowsPerRegime
    ensures !res.1 ==> res.0 == d
    ensures res.1 ==> res.0.fitted && res.0.trainedOn == ExtractFeatures(data, DefaultWindow, o).value
  {
    match ExtractFeatures(data, DefaultWindow, o)
    case None => (d, false)
    case Some(rows) =>
      if |rows| < d.nRegimes * RowsPerRegime then (d, false)
      else (d.(fitted := true, trainedOn := rows), true)
  }

  /** The position of the first largest entry (numpy's `argmax`). */
  function ArgMax(p: seq<real>): (k: nat)
    requires |p| > 0
    ensures k < |p|
    ensures forall j :: 0 <= j < |p| ==> p[j] <= p[k]
    ensures forall j :: 0 <= j < k ==> p[j] < p[k]
  {
    if |p| == 1 then 0
    else
      var k := ArgMax(p[..|p| - 1]);
      assert forall j :: 0 <= j < |p| - 1 ==> p[..|p| - 1][j] == p[j];
      if p[|p| - 1] > p[k] then |p| - 1 else k
  }

  /** A sum of entries none of which exceeds `m` is at most `|s| * m`. */
  lemma {:induction false} SumAtMostCountTimesBound(s: seq<real>, m: real)
    requires forall j :: 0 <= j < |s| ==> s[j] <= m
    ensures Sum(s) <= (|s| as real) * m
  {
    if |s| > 0 {
      assert forall j :: 0 <= j < |s| - 1 ==> s[1..][j] == s[j + 1];
      SumAtMostCountTimesBound(s[1..], m);
    }
  }

  /** The labelled regimes; any other component is called `Regime k`. */
  function RegimeName(k: nat): (name: string)
    ensures k < 4 ==> name == ["Bullish Momentum", "Bearish Decline", "Consolidation", "High Volatility"][k]
    ensures k >= 4 ==> name == "Regime " + NatToString(k)
    ensures |name| > 0 && (name[0] == 'R' <==> k >= 4)
  {
    if k == 0 then "Bullish Momentum"
    else if k == 1 then "Bearish Decline"
    else if k == 2 then "Consolidation"
    else if k == 3 then "High Volatility"
    else "Regime " + NatToString(k)
  }

  predicate IsHexDigit(c: char)
  {
    '0' <= c <= '9' || 'a' <= c <= 'f'
  }

  /** Display colours, white for components without one. */
  function RegimeColor(k: nat): (color: string)
    ensures |color| == 7 && color[0] == '#'
    ensures forall i :: 1 <= i < 7 ==> IsHexDigit(color[i])
    ensures k >= 4 ==> color == "#ffffff"
  {
    if k == 0 then "#00ff88"
    else if k == 1 then "#ff3366"
    else if k == 2 then "#00aaff"
    else if k == 3 then "#ffaa00"
    else "#ffffff"
  }

  /** Different components never share a name. */
  lemma RegimeNamesDistinct(a: nat, b: nat)
    requires RegimeName(a) == RegimeName(b)
    ensures a == b
  {
    if a >= 4 && b >= 4 {
      var pa := "Regime " + NatToString(a);
      var pb := "Regime " + NatToString(b);
      assert pa[7..] == NatToString(a) && pb[7..] == NatToString(b);
      NatToStringInjective(a, b);
    }
  }

  /** The dictionary `detect_regime` returns. */
  datatype Report = Report(regime: nat, name: string, color: string, confidence: real, probabilities: seq<real>)

  /**
    `detect_regime(data, window)`: None before a successful fit or below
    `window + 1` points; otherwise the features of `data[-window-10:]`,
    the mixture posterior of the newest row, its most probable component
    (scikit-learn's `predict` is the argmax of `predict_proba`) and that
    component's probability as the confidence.
   */
  function DetectRegime(d: Detector, data: seq<real>, window: nat, o: Oracles): (r: Option<Report>)
    requires Valid(d) && ValidOracles(o, d.nRegimes)
    ensures r.Some? <==> d.fitted && |data| >= window + 1
    ensures r.Some? ==>
      var tail := LastN(data, window + Lookback);
      var rows := ExtractFeatures(tail, window, o);
      && rows.Some? && |rows.value| > 0
      && r.value.probabilities == o.posterior(d.trainedOn, rows.value[|rows.value| - 1])
    ensures r.Some? ==>
      var p := r.value.probabilities;
      && r.value.regime < |p| == d.nRegimes
      && r.value.confidence == p[r.value.regime]
      && (forall k :: 0 <= k < |p| ==> p[k] <= r.value.confidence)
      && (forall k :: 0 <= k < r.value.regime ==> p[k] < r.value.confidence)
      && r.value.name == RegimeName(r.value.regime)
      && r.value.color == RegimeColor(r.value.regime)
  {
    if !d.fitted || |data| < window + 1 then None
    else
      var tail := LastN(data, window + Lookback);
      match ExtractFeatures(tail, window, o)
      case None => None
      case Some(rows) =>
        if |rows| == 0 then None
        else
          var p := o.posterior(d.trainedOn, rows[|rows| - 1]);
          var k := ArgMax(p);
          Some(Report(k, RegimeName(k), RegimeColor(k), p[k], p))
  }

  /** A detector that was never fitted reports no regime, whatever it is shown. */
  lemma FreshReportsNothing(n: nat, data: seq<real>, window: nat, o: Oracles)
    requires n >= 1 && ValidOracles(o, n)
    ensures DetectRegime(Fresh(n), data, window, o).None?
  {
  }

  /** The reported confidence is never below `1 / n_regimes`: the largest of `n` shares summing to one. */
  lemma ConfidenceAtLeastUniform(d: Detector, data: seq<real>, window: nat, o: Oracles)
    requires Valid(d) && ValidOracles(o, d.nRegimes)
    requires DetectRegime(d, data, window, o).Some?
    ensures DetectRegime(d, data, window, o).value.confidence >= 1.0 / (d.nRegimes as real)
  {
    var r := DetectRegime(d, data, window, o).value;
    LargestShareAtLeastUniform(r.probabilities, r.confidence);
  }

  /** If `n` shares summing to one are each at most `m`, then `m >= 1 / n`. */
  lemma LargestShareAtLeastUniform(p: seq<real>, m: real)
    requires |p| > 0 && Sum(p) == 1.0
    requires forall j :: 0 <= j < |p| ==> p[j] <= m
    ensures m >= 1.0 / (|p| as real)
  {
    SumAtMostCountTimesBound(p, m);
    var n := |p| as real;
    assert 1.0 <= n * m;
    calc {
      1.0 / n;
    <= (n * m) / n;
    ==
      m;
    }
  }

  /** A report is confident beyond one half only when its regime is the unique most probable one. */
  lemma MajorityRegimeIsUnique(d: Detector, data: seq<real>, window: nat, o: Oracles, k: nat)
    requires Valid(d) && ValidOracles(o, d.nRegimes)
    requires DetectRegime(d, data, window, o).Some?
    requires DetectRegime(d, data, window, o).value.confidence > 0.5
    requires k < d.nRegimes && k != DetectRegime(d, data, window, o).value.regime
    ensures DetectRegime(d, data, window, o).value.probabilities[k] < 0.5
  {
    var r := DetectRegime(d, data, window, o).value;
    var p := r.probabilities;
    TwoEntriesAtMostSum(p, k, r.regime);
  }

  /** Two different entries of a non-negative vector add up to at most its sum. */
  lemma {:induction false} TwoEntriesAtMostSum(p: seq<real>, i: nat, j: nat)
    requires i < |p| && j < |p| && i != j
    requires forall k :: 0 <= k < |p| ==> 0.0 <= p[k]
    ensures p[i] + p[j] <= Sum(p)
  {
    if i == 0 || j == 0 {
      var other := if i == 0 then j else i;
      assert p[1..][other - 1] == p[other];
      OneEntryAtMostSum(p[1..], other - 1);
    } else {
      assert p[1..][i - 1] == p[i] && p[1..][j - 1] == p[j];
      TwoEntriesAtMostSum(p[1..], i - 1, j - 1);
      SumNonNegative([p[0]]);
    }
  }

  /** One entry of a non-negative vector is at most its sum. */
  lemma {:induction false} OneEntryAtMostSum(p: seq<real>, i: nat)
    requires i < |p|
    requires forall k :: 0 <= k < |p| ==> 0.0 <= p[k]
    ensures p[i] <= Sum(p)
  {
    if i == 0 {
      SumNonNegative(p[1..]);
    } else {
      assert p[1..][i - 1] == p[i];
      OneEntryAtMostSum(p[1..], i - 1);
    }
  }
}
