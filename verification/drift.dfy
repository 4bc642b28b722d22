/**
  The drift monitor: a frozen reference sample compared with the tail of
  the current series through five measures (Kolmogorov-Smirnov statistic,
  population stability index, Jensen-Shannon divergence, standardised mean
  shift, log variance ratio), combined with fixed weights over capped terms
  into one score; every judged call appends one record to the history.
 */
module DriftDetection {
  import opened Wrappers
  import opened Buffers
  import opened Descriptive
  import opened Numerics

  /** `detect_drift` needs at least this many current points. */
  const MinCurrent: nat := 10
  /** Empty histogram buckets are floored to this share before taking logs. */
  const ShareFloor: real := 0.0000000001
  /** PSI and JS histograms use this many buckets. */
  const Buckets: nat := 10

  const KsWeight: real := 0.25
  const PsiWeight: real := 0.25
  const JsWeight: real := 0.20
  const MeanWeight: real := 0.15
  const VarianceWeight: real := 0.15

  /** Windows are Python integers used in `s[-w:]`, so 0 and negative values have Python's meaning. */
  datatype Config = Config(referenceWindow: int, detectionWindow: int, driftThreshold: real)

  const DefaultConfig: Config := Config(500, 50, 0.1)

  /** The cached `reference_stats`. */
  datatype Summary = Summary(mean: real, std: real, median: real, q25: real, q75: real)

  /**
    The reference sample and its cached summary. The summary is absent for
    an empty sample: `set_reference` raised before caching it, and every
    later `detect_drift` raises on the empty sample before reading it.
   */
  datatype Reference = Reference(data: seq<real>, summary: Option<Summary>)

  datatype DriftRecord = DriftRecord(timestamp: Instant, score: real, detected: bool)

  datatype Monitor = Monitor(config: Config, reference: Option<Reference>, history: seq<DriftRecord>)

  datatype Details = Details(
    ksStatistic: real,
    ksPValue: real,
    psi: real,
    jsDivergence: real,
    meanShift: real,
    varianceDrift: real,
    currentMean: real,
    referenceMean: real)

  /** `(drift_detected, drift_score, details)`; the not-ready answer has no details (`{}`). */
  datatype Judgement = Judgement(detected: bool, score: real, details: Option<Details>)

  const Quiet: Judgement := Judgement(false, 0.0, None)

  /**
    The scipy/numpy collaborators: `ks(a, b)` is `ks_2samp` (statistic,
    p-value); `counts(e, x)` is `np.histogram(x, bins=edges)` where `edges`
    are the ten equal-width bins numpy derives from `e`; `js(p, q)` is the
    Jensen-Shannon computation on shared density histograms. A `Raised`
    answer stands for an exception inside the guarded block.
   */
  datatype Divergences = Divergences(
    ks: (seq<real>, seq<real>) -> (real, real),
    counts: (seq<real>, seq<real>) -> Outcome<seq<nat>>,
    js: (seq<real>, seq<real>) -> Outcome<real>)

  /** The ranges of those results: a KS statistic in [0, 1], ten bucket counts, a non-negative divergence. */
  ghost predicate ValidDivergences(dv: Divergences)
  {
    && (forall a, b :: 0.0 <= dv.ks(a, b).0 <= 1.0)
    && (forall e, x :: dv.counts(e, x).Returned? ==> |dv.counts(e, x).value| == Buckets)
    && (forall p, q :: dv.js(p, q).Returned? ==> dv.js(p, q).value >= 0.0)
  }

  /** A cached summary exists exactly for a non-empty reference, and its standard deviation is non-negative. */
  predicate Valid(m: Monitor)
  {
    m.reference.Some? ==>
      && (m.reference.value.summary.Some? <==> |m.reference.value.data| > 0)
      && (m.reference.value.summary.Some? ==> m.reference.value.summary.value.std >= 0.0)
  }

  function Fresh(cfg: Config): (m: Monitor)
    ensures Valid(m)
  {
    Monitor(cfg, None, [])
  }

  /**
    `set_reference(data)`: keep `data[-reference_window:]` and cache its
    summary. On an empty slice the sample is stored first and then
    `np.percentile` raises, so the call reports an exception (`true`) and
    no summary is cached.
   */
  function SetReference(m: Monitor, data: seq<real>, num: Numerics): (res: (Monitor, bool))
    requires ValidNumerics(num)
    ensures var m' := res.0;
      && Valid(m') && m'.config == m.config && m'.history == m.history
      && m'.reference.Some? && m'.reference.value.data == PySuffix(data, m.config.referenceWindow)
    ensures res.1 <==> |PySuffix(data, m.config.referenceWindow)| == 0
    ensures m.config.referenceWindow > 0 ==> |res.0.reference.value.data| <= m.config.referenceWindow
    ensures res.0.reference.value.summary.Some? <==> !res.1
    ensures res.0.reference.value.summary.Some? ==>
      var s := res.0.reference.value.summary.value;
      var kept := res.0.reference.value.data;
      && s.mean == Mean(kept) && s.std == num.sqrt(Variance(kept)) && s.median == Median(kept)
      && s.q25 == Percentile(kept, 25.0) && s.q75 == Percentile(kept, 75.0)
      && s.std >= 0.0 && s.q25 <= s.median <= s.q75
  {
    var kept := PySuffix(data, m.config.referenceWindow);
    if |kept| == 0 then (m.(reference := Some(Reference(kept, None))), true)
    else
      VarianceNonNegative(kept);
      SqrtNonNegative(num, Variance(kept));
      MedianIsPercentile50(kept);
      PercentileMonotone(kept, 25.0, 50.0);
      PercentileMonotone(kept, 50.0, 75.0);
      var summary := Summary(
        Mean(kept), num.sqrt(Variance(kept)), Median(kept),
        Percentile(kept, 25.0), Percentile(kept, 75.0));
      (m.(reference := Some(Reference(kept, Some(summary)))), false)
  }

  /** A bucket's share of a sample of `n` points, floored so that empty buckets stay positive. */
  function Share(count: nat, n: nat): (r: real)
    requires n > 0
    ensures r > 0.0
    ensures count > 0 ==> r == (count as real) / (n as real)
  {
    var pct := (count as real) / (n as real);
    if pct == 0.0 then ShareFloor else pct
  }

  /** A smaller positive number over a larger one gives a ratio below one. */
  lemma QuotientBelowOne(c: real, r: real)
    requires 0.0 < c < r
    ensures c / r < 1.0
  {
    var q := c / r;
    assert q * r == c;
    if q >= 1.0 {
      MulMonotone(1.0, q, r);
    }
  }

  /** A share moving away from its reference share in either direction adds a non-negative amount. */
  lemma PsiTermNonNegative(c: real, r: real, num: Numerics)
    requires c > 0.0 && r > 0.0 && LogKeepsSign(num)
    ensures (c - r) * num.ln(c / r) >= 0.0
  {
    var l := num.ln(c / r);
    if c > r {
      assert c / r > 1.0;
      MulNonNegative(c - r, l);
    } else if c < r {
      QuotientBelowOne(c, r);
      QuotientNonNegative(c, r);
      assert c / r > 0.0;
      MulNonNegative(r - c, -l);
      assert (c - r) * l == (r - c) * (-l);
    }
  }

  /**
    `sum((cur - ref) * ln(cur / ref))` over the buckets from `i` on. Every
    term is non-negative, so with a sign-correct logarithm the sum is too
    and the `abs` around it changes nothing.
   */
  function PsiTerms(refCounts: seq<nat>, curCounts: seq<nat>, nRef: nat, nCur: nat, num: Numerics, i: nat): (sum: real)
    requires |refCounts| == |curCounts| && i <= |refCounts| && nRef > 0 && nCur > 0
    ensures LogKeepsSign(num) ==> sum >= 0.0
    decreases |refCounts| - i
  {
    if i == |refCounts| then 0.0
    else
      var r := Share(refCounts[i], nRef);
      var c := Share(curCounts[i], nCur);
      assert LogKeepsSign(num) ==> (c - r) * num.ln(c / r) >= 0.0 by {
        if LogKeepsSign(num) {
          PsiTermNonNegative(c, r, num);
        }
      }
      (c - r) * num.ln(c / r) + PsiTerms(refCounts, curCounts, nRef, nCur, num, i + 1)
  }

  /** Identical bucket shares contribute nothing, whatever the logarithm returns. */
  lemma {:induction false} PsiTermsOfIdenticalShares(counts: seq<nat>, n: nat, num: Numerics, i: nat)
    requires i <= |counts| && n > 0
    ensures PsiTerms(counts, counts, n, n, num, i) == 0.0
    decreases |counts| - i
  {
    if i < |counts| {
      PsiTermsOfIdenticalShares(counts, n, num, i + 1);
    }
  }

  /**
    `_calculate_psi(reference, current)`: bins from the reference, shares
    floored at 1e-10, the absolute value of the log-ratio-weighted sum; 0.0
    when anything inside raises.
   */
  function Psi(reference: seq<real>, current: seq<real>, dv: Divergences, num: Numerics): (p: real)
    requires |reference| > 0 && |current| > 0 && ValidDivergences(dv)
    ensures p >= 0.0
    ensures dv.counts(reference, reference).Raised? || dv.counts(reference, current).Raised? ==> p == 0.0
  {
    match (dv.counts(reference, reference), dv.counts(reference, current))
    case (Returned(refCounts), Returned(curCounts)) =>
      Abs(PsiTerms(refCounts, curCounts, |reference|, |current|, num, 0))
    case _ => 0.0
  }

  /** The stability index of a sample against itself is zero. */
  lemma PsiOfItself(sample: seq<real>, dv: Divergences, num: Numerics)
    requires |sample| > 0 && ValidDivergences(dv)
    ensures Psi(sample, sample, dv, num) == 0.0
  {
    match dv.counts(sample, sample)
    case Returned(counts) =>
      PsiTermsOfIdenticalShares(counts, |sample|, num, 0);
    case Raised(_) =>
  }

  /** `_calculate_js_divergence(p, q)`: 0.0 when the computation raises. */
  function Js(p: seq<real>, q: seq<real>, dv: Divergences): (r: real)
    requires ValidDivergences(dv)
    ensures r >= 0.0
    ensures dv.js(p, q).Raised? ==> r == 0.0
  {
    match dv.js(p, q)
    case Returned(v) => v
    case Raised(_) => 0.0
  }

  /** The five measures capped to [0, 1] and weighted 0.25 / 0.25 / 0.20 / 0.15 / 0.15. */
  function DriftScore(ks: real, psi: real, js: real, meanShift: real, varianceDrift: real): (s: real)
    requires 0.0 <= ks <= 1.0 && psi >= 0.0 && js >= 0.0 && meanShift >= 0.0 && varianceDrift >= 0.0
    ensures 0.0 <= s <= 1.0
  {
    KsWeight * ks
    + PsiWeight * Min(psi / 0.25, 1.0)
    + JsWeight * Min(js, 1.0)
    + MeanWeight * Min(meanShift / 3.0, 1.0)
    + VarianceWeight * Min(varianceDrift / 2.0, 1.0)
  }

  /** The combination weights sum to one, so a score of 1 needs every capped measure at its cap. */
  lemma FullScoreNeedsEveryMeasure(ks: real, psi: real, js: real, meanShift: real, varianceDrift: real)
    requires 0.0 <= ks <= 1.0 && psi >= 0.0 && js >= 0.0 && meanShift >= 0.0 && varianceDrift >= 0.0
    ensures DriftScore(ks, psi, js, meanShift, varianceDrift) == 1.0 <==>
      ks == 1.0 && psi >= 0.25 && js >= 1.0 && meanShift >= 3.0 && varianceDrift >= 2.0
  {
  }

  /** `abs(mean(current) - mean_ref) / (std_ref + 1e-8)`: the mean's move in reference standard deviations. */
  function MeanShift(currentMean: real, summary: Summary): (r: real)
    requires summary.std >= 0.0
    ensures r >= 0.0
  {
    QuotientNonNegative(Abs(currentMean - summary.mean), summary.std + Epsilon);
    Abs(currentMean - summary.mean) / (summary.std + Epsilon)
  }

  /** `abs(log(var(current) / (var(reference) + 1e-8)))`: how far the spread moved, on a log scale. */
  function VarianceDrift(reference: seq<real>, current: seq<real>, num: Numerics): (r: real)
    requires |reference| > 0 && |current| > 0
    ensures r >= 0.0
  {
    VarianceNonNegative(reference);
    Abs(num.ln(Variance(current) / (Variance(reference) + Epsilon)))
  }

  /** The judgement on a non-empty reference and current sample. */
  function Judge(ref: Reference, current: seq<real>, threshold: real, dv: Divergences, num: Numerics): (j: Judgement)
    requires |ref.data| > 0 && |current| > 0 && ref.summary.Some? && ref.summary.value.std >= 0.0
    requires ValidDivergences(dv) && ValidNumerics(num)
    ensures 0.0 <= j.score <= 1.0
    ensures j.detected <==> j.score > threshold
    ensures j.details.Some?
    ensures var d := j.details.value;
      && (d.ksStatistic, d.ksPValue) == dv.ks(ref.data, current)
      && d.psi == Psi(ref.data, current, dv, num) && d.jsDivergence == Js(ref.data, current, dv)
      && d.currentMean == Mean(current) && d.referenceMean == ref.summary.value.mean
      && d.meanShift == MeanShift(d.currentMean, ref.summary.value) && d.meanShift >= 0.0
      && d.varianceDrift == VarianceDrift(ref.data, current, num) && d.varianceDrift >= 0.0
      && j.score == DriftScore(d.ksStatistic, d.psi, d.jsDivergence, d.meanShift, d.varianceDrift)
  {
    var (ksStat, ksP) := dv.ks(ref.data, current);
    var psi := Psi(ref.data, current, dv, num);
    var js := Js(ref.data, current, dv);
    var summary := ref.summary.value;
    var meanShift := MeanShift(Mean(current), summary);
    var varianceDrift := VarianceDrift(ref.data, current, num);
    var score := DriftScore(ksStat, psi, js, meanShift, varianceDrift);
    Judgement(score > threshold, score,
      Some(Details(ksStat, ksP, psi, js, meanShift, varianceDrift, Mean(current), summary.mean)))
  }

  /** `detect_drift` gets past its guard: a reference was set and at least ten points were given. */
  predicate Ready(m: Monitor, current: seq<real>)
  {
    m.reference.Some? && |current| >= MinCurrent
  }

  /**
    `detect_drift(current_data)` at wall-clock `now`. Without a reference or
    with fewer than ten points: the quiet answer and no record. An empty
    reference or an empty tail makes `ks_2samp` raise. Otherwise a real
    judgement, and exactly one record carrying its score and flag.
   */
  function DetectDrift(m: Monitor, current: seq<real>, now: Instant, dv: Divergences, num: Numerics)
    : (out: Outcome<(Monitor, Judgement)>)
    requires ValidDivergences(dv) && ValidNumerics(num)
    requires Valid(m)
    ensures !Ready(m, current) ==> out == Returned((m, Quiet))
    ensures out.Raised? <==>
      Ready(m, current) && (|m.reference.value.data| == 0 || |PySuffix(current, m.config.detectionWindow)| == 0)
    ensures out.Returned? ==> Valid(out.value.0) && out.value.0.config == m.config && out.value.0.reference == m.reference
    ensures Ready(m, current) && out.Returned? ==>
      var j := out.value.1;
      && j.details.Some?
      && 0.0 <= j.score <= 1.0
      && (j.detected <==> j.score > m.config.driftThreshold)
      && j.details.value.currentMean == Mean(PySuffix(current, m.config.detectionWindow))
      && out.value.0.history == m.history + [DriftRecord(now, j.score, j.detected)]
    ensures Ready(m, current) && out.Returned? ==>
      out.value.1 == Judge(m.reference.value, PySuffix(current, m.config.detectionWindow), m.config.driftThreshold, dv, num)
  {
    if m.reference.None? || |current| < MinCurrent then Returned((m, Quiet))
    else
      var ref := m.reference.value;
      var tail := PySuffix(current, m.config.detectionWindow);
      if |ref.data| == 0 || |tail| == 0 then Raised("ks_2samp of an empty sample")
      else
        var j := Judge(ref, tail, m.config.driftThreshold, dv, num);
        var record := DriftRecord(now, j.score, j.detected);
        Returned((m.(history := m.history + [record]), j))
  }

  /**
    An empty reference slice is stored even though `set_reference` raises,
    and from then on every call that gets past the guard raises too.
   */
  lemma EmptyReferenceKeepsRaising(m: Monitor, data: seq<real>, current: seq<real>, now: Instant, dv: Divergences, num: Numerics)
    requires ValidDivergences(dv) && ValidNumerics(num)
    requires |PySuffix(data, m.config.referenceWindow)| == 0 && |current| >= MinCurrent
    ensures SetReference(m, data, num).1
    ensures DetectDrift(SetReference(m, data, num).0, current, now, dv, num).Raised?
  {
  }

  /**
    Judging the same data twice gives the same score both times and leaves
    two records behind: the history does not feed back into the score.
   */
  lemma DriftIsDeterministic(m: Monitor, current: seq<real>, t1: Instant, t2: Instant, dv: Divergences, num: Numerics)
    requires ValidDivergences(dv) && ValidNumerics(num)
    requires Valid(m) && m.reference.Some?
    requires |m.reference.value.data| > 0 && |current| >= MinCurrent && m.config.detectionWindow >= 0
    ensures DetectDrift(m, current, t1, dv, num).Returned?
    ensures var (m1, j1) := DetectDrift(m, current, t1, dv, num).value;
      && DetectDrift(m1, current, t2, dv, num).Returned?
      && var (m2, j2) := DetectDrift(m1, current, t2, dv, num).value;
      && j2 == j1
      && m2.history == m.history + [DriftRecord(t1, j1.score, j1.detected), DriftRecord(t2, j1.score, j1.detected)]
  {
  }

  /** Judging the reference sample itself finds no population shift and no mean shift. */
  lemma JudgeItself(ref: Reference, threshold: real, dv: Divergences, num: Numerics)
    requires |ref.data| > 0 && ref.summary.Some? && ref.summary.value.std >= 0.0
    requires ref.summary.value.mean == Mean(ref.data)
    requires ValidDivergences(dv) && ValidNumerics(num)
    ensures Judge(ref, ref.data, threshold, dv, num).details.value.psi == 0.0
    ensures Judge(ref, ref.data, threshold, dv, num).details.value.meanShift == 0.0
  {
    PsiOfItself(ref.data, dv, num);
  }

  /**
    With equal windows, judging a series against a reference taken from the
    same series finds no population shift and no mean shift.
   */
  lemma SelfComparisonShowsNoShift(m: Monitor, data: seq<real>, now: Instant, dv: Divergences, num: Numerics)
    requires Valid(m) && ValidDivergences(dv) && ValidNumerics(num)
    requires m.config.referenceWindow == m.config.detectionWindow > 0 && |data| >= MinCurrent
    ensures var out := DetectDrift(SetReference(m, data, num).0, data, now, dv, num);
      && out.Returned? && out.value.1.details.Some?
      && out.value.1.details.value.psi == 0.0
      && out.value.1.details.value.meanShift == 0.0
  {
    var m' := SetReference(m, data, num).0;
    var ref := m'.reference.value;
    assert PySuffix(data, m.config.detectionWindow) == ref.data;
    JudgeItself(ref, m.config.driftThreshold, dv, num);
    var j := Judge(ref, ref.data, m.config.driftThreshold, dv, num);
    assert DetectDrift(m', data, now, dv, num)
      == Returned((m'.(history := m'.history + [DriftRecord(now, j.score, j.detected)]), j));
  }
}
