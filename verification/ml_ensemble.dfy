/**
  The machine-learning ensemble detector: four unsupervised outlier models
  (isolation forest, elliptic envelope, local outlier factor, one-class SVM)
  fitted on standardised data, each voting -1 (outlier) or +1 (inlier) per
  point; the score is the fraction of outlier votes and a point is anomalous
  when at least half the models call it an outlier.
 */
module MLEnsemble {
  import opened Wrappers

  /** `fit` refuses samples smaller than this. */
  const MinFitSamples: nat := 50

  /** One model's verdict on one point: -1 (outlier) or +1 (inlier). */
  datatype Vote = Outlier | Inlier

  /** The four models, in the order they are fitted and stacked. */
  datatype Model = IsolationForest | EllipticEnvelope | LocalOutlierFactor | OneClassSvm

  const Models: seq<Model> := [IsolationForest, EllipticEnvelope, LocalOutlierFactor, OneClassSvm]

  /** The result of one model's `predict`: a vote per point, or an exception. */
  datatype Prediction = Votes(votes: seq<Vote>) | PredictRaised

  /**
    The scikit-learn collaborators. Every estimator uses a fixed seed, so a
    fitted estimator is identified by the data it was fitted on:
    `transform(a, x)` is a StandardScaler fitted on `a` applied to `x`;
    `fitRaisesAt(s)` is the position in `Models` of the first model whose
    `fit` raises on the scaled sample `s` (None when all four succeed);
    `predict(m, s, x)` is model `m` fitted on `s` predicting the scaled `x`.
    The oracle stands for the four estimators as built with the detector's
    `contamination`, which therefore affects no result on its own.
   */
  datatype Estimators = Estimators(
    transform: (seq<real>, seq<real>) -> seq<real>,
    fitRaisesAt: seq<real> -> Option<nat>,
    predict: (Model, seq<real>, seq<real>) -> Prediction)

  /**
    scikit-learn's shape guarantees (one scaled row and one vote per input
    point), and a failing model is one of the four.
   */
  ghost predicate ValidEstimators(e: Estimators)
  {
    && (forall a, x :: |e.transform(a, x)| == |x|)
    && (forall m, s, x :: e.predict(m, s, x).Votes? ==> |e.predict(m, s, x).votes| == |x|)
    && (forall s :: e.fitRaisesAt(s).Some? ==> e.fitRaisesAt(s).value < |Models|)
  }

  /** The position of a model in `Models`. */
  function Index(m: Model): (k: nat)
    ensures k < |Models| && Models[k] == m
  {
    match m
    case IsolationForest => 0
    case EllipticEnvelope => 1
    case LocalOutlierFactor => 2
    case OneClassSvm => 3
  }

  /**
    The detector's state: the `fitted` flag, the sample the scaler was last
    fitted on, and for each model (in `Models` order) the scaled sample it
    was last fitted on.
   */
  datatype Detector = Detector(
    contamination: real,
    fitted: bool,
    scalerData: seq<real>,
    modelData: seq<seq<real>>)

  predicate Valid(d: Detector)
  {
    |d.modelData| == |Models|
  }

  function Fresh(contamination: real): (d: Detector)
    ensures Valid(d) && !d.fitted
  {
    Detector(contamination, false, [], seq(|Models|, _ => []))
  }

  /**
    `fit(X)`. Fewer than 50 samples: refuse and change nothing. Otherwise
    the scaler is refitted, then the four models are fitted in order; when
    one raises, the models before it keep their new fit, the rest keep
    their old one, `fitted` keeps its previous value and `fit` returns False.
   */
  function Fit(d: Detector, x: seq<real>, e: Estimators): (res: (Detector, bool))
    requires Valid(d) && ValidEstimators(e)
    ensures Valid(res.0) && res.0.contamination == d.contamination
    ensures |x| < MinFitSamples ==> res == (d, false)
    ensures res.1 <==> |x| >= MinFitSamples && e.fitRaisesAt(e.transform(x, x)).None?
    ensures res.1 ==> res.0.fitted
    ensures !res.1 ==> res.0.fitted == d.fitted
    ensures |x| >= MinFitSamples ==> res.0.scalerData == x
    ensures res.1 ==> forall k :: 0 <= k < |Models| ==> res.0.modelData[k] == e.transform(x, x)
    ensures |x| >= MinFitSamples && e.fitRaisesAt(e.transform(x, x)).Some? ==>
      var failed := e.fitRaisesAt(e.transform(x, x)).value;
      && (forall k :: 0 <= k < failed ==> res.0.modelData[k] == e.transform(x, x))
      && (forall k :: failed <= k < |Models| ==> res.0.modelData[k] == d.modelData[k])
  {
    if |x| < MinFitSamples then (d, false)
    else
      var scaled := e.transform(x, x);
      match e.fitRaisesAt(scaled)
      case None =>
        (Detector(d.contamination, true, x, seq(|Models|, _ => scaled)), true)
      case Some(k) =>
        var models := seq(|Models|, i requires 0 <= i < |Models| => if i < k then scaled else d.modelData[i]);
        (d.(scalerData := x, modelData := models), false)
  }

  /** The number of outlier votes in a ballot. */
  function CountOutliers(b: seq<Vote>): (n: nat)
    ensures n <= |b|
  {
    if |b| == 0 then 0 else (if b[0] == Outlier then 1 else 0) + CountOutliers(b[1..])
  }

  /** Counting the outlier votes one by one agrees with their multiplicity in the ballot. */
  lemma {:induction false} CountIsMultiplicity(b: seq<Vote>)
    ensures CountOutliers(b) == multiset(b)[Outlier]
  {
    if |b| > 0 {
      CountIsMultiplicity(b[1..]);
      assert b == [b[0]] + b[1..];
    }
  }

  /** Model `m`, as last fitted, predicting `x` scaled by the current scaler. */
  function Predict(d: Detector, m: Model, x: seq<real>, e: Estimators): Prediction
    requires Valid(d)
  {
    e.predict(m, d.modelData[Index(m)], e.transform(d.scalerData, x))
  }

  /** Whether a `predict` whose exception `detect` does not catch raised. */
  predicate UncaughtRaise(d: Detector, x: seq<real>, e: Estimators)
    requires Valid(d)
  {
    || Predict(d, IsolationForest, x, e).PredictRaised?
    || Predict(d, LocalOutlierFactor, x, e).PredictRaised?
    || Predict(d, OneClassSvm, x, e).PredictRaised?
  }

  /**
    The per-point ballots `[if, ee, lof, svm]`. An exception from the
    isolation forest, the LOF or the SVM escapes; an exception from the
    elliptic envelope counts as an all-inlier vote.
   */
  function Ballots(d: Detector, x: seq<real>, e: Estimators): (out: Outcome<seq<seq<Vote>>>)
    requires Valid(d) && ValidEstimators(e)
    ensures out.Raised? <==> UncaughtRaise(d, x, e)
    ensures out.Returned? ==> |out.value| == |x|
    ensures out.Returned? ==> forall i :: 0 <= i < |x| ==>
      && |out.value[i]| == |Models|
      && out.value[i][Index(IsolationForest)] == Predict(d, IsolationForest, x, e).votes[i]
      && out.value[i][Index(LocalOutlierFactor)] == Predict(d, LocalOutlierFactor, x, e).votes[i]
      && out.value[i][Index(OneClassSvm)] == Predict(d, OneClassSvm, x, e).votes[i]
      && out.value[i][Index(EllipticEnvelope)] ==
        (if Predict(d, EllipticEnvelope, x, e).PredictRaised? then Inlier
         else Predict(d, EllipticEnvelope, x, e).votes[i])
  {
    var forest := Predict(d, IsolationForest, x, e);
    var envelope := Predict(d, EllipticEnvelope, x, e);
    var lof := Predict(d, LocalOutlierFactor, x, e);
    var svm := Predict(d, OneClassSvm, x, e);
    if forest.PredictRaised? then Raised("isolation forest predict raised")
    else if lof.PredictRaised? then Raised("local outlier factor predict raised")
    else if svm.PredictRaised? then Raised("one-class SVM predict raised")
    else
      var ee := if envelope.PredictRaised? then seq(|x|, _ => Inlier) else envelope.votes;
      Returned(seq(|x|, i requires 0 <= i < |x| =>
        [forest.votes[i], ee[i], lof.votes[i], svm.votes[i]]))
  }

  /** One point's ensemble score: the fraction of the four models voting outlier. */
  function VoteScore(b: seq<Vote>): (s: real)
    requires |b| == |Models|
    ensures s == 0.0 || s == 0.25 || s == 0.5 || s == 0.75 || s == 1.0
    ensures s == (multiset(b)[Outlier] as real) / 4.0
  {
    CountIsMultiplicity(b);
    (CountOutliers(b) as real) / 4.0
  }

  /**
    `detect(X)`: all-zero labels and scores before a successful fit;
    otherwise per point the outlier-vote fraction and the label
    `1 if score >= 0.5 else 0`.
   */
  function Detect(d: Detector, x: seq<real>, e: Estimators): (out: Outcome<(seq<int>, seq<real>)>)
    requires Valid(d) && ValidEstimators(e)
    ensures !d.fitted ==> out == Returned((seq(|x|, _ => 0), seq(|x|, _ => 0.0)))
    ensures out.Returned? ==> |out.value.0| == |x| && |out.value.1| == |x|
    ensures out.Raised? <==> d.fitted && UncaughtRaise(d, x, e)
    ensures d.fitted && out.Returned? ==> forall i :: 0 <= i < |x| ==>
      var outliers := multiset(Ballots(d, x, e).value[i])[Outlier];
      && out.value.1[i] == (outliers as real) / 4.0
      && (out.value.0[i] == 1 <==> outliers >= 2)
      && (out.value.0[i] == 0 <==> outliers < 2)
  {
    if !d.fitted then Returned((seq(|x|, _ => 0), seq(|x|, _ => 0.0)))
    else
      match Ballots(d, x, e)
      case Raised(reason) => Raised(reason)
      case Returned(ballots) =>
        var scores := seq(|x|, i requires 0 <= i < |x| => VoteScore(ballots[i]));
        var labels := seq(|x|, i requires 0 <= i < |x| => if scores[i] >= 0.5 then 1 else 0);
        Returned((labels, scores))
  }

  /** Every ensemble score is one of 0, 0.25, 0.5, 0.75 and 1. */
  lemma ScoresAreQuantised(d: Detector, x: seq<real>, e: Estimators, i: nat)
    requires Valid(d) && ValidEstimators(e)
    requires Detect(d, x, e).Returned? && i < |x|
    ensures var s := Detect(d, x, e).value.1[i];
      s == 0.0 || s == 0.25 || s == 0.5 || s == 0.75 || s == 1.0
  {
    if d.fitted {
      var b := Ballots(d, x, e).value[i];
      var _ := VoteScore(b);
    }
  }

  /** The same estimators, except that an elliptic envelope `predict` that raises votes inlier everywhere. */
  function EnvelopeNeverRaises(e: Estimators): (e': Estimators)
    requires ValidEstimators(e)
    ensures ValidEstimators(e')
  {
    e.(predict := (m, s, x) =>
      if m == EllipticEnvelope && e.predict(m, s, x).PredictRaised?
      then Votes(seq(|x|, _ => Inlier))
      else e.predict(m, s, x))
  }

  /** A failing elliptic envelope is exactly an all-normal vote: the results are identical. */
  lemma EnvelopeFailureVotesNormal(d: Detector, x: seq<real>, e: Estimators)
    requires Valid(d) && ValidEstimators(e)
    ensures Detect(d, x, e) == Detect(d, x, EnvelopeNeverRaises(e))
  {
    var e' := EnvelopeNeverRaises(e);
    assert e'.transform == e.transform;
    assert Ballots(d, x, e) == Ballots(d, x, e');
  }

  /**
    A successful fit forgets everything earlier fits left behind: two
    detectors with the same contamination end up identical.
   */
  lemma RefitForgetsHistory(d1: Detector, d2: Detector, x: seq<real>, e: Estimators)
    requires Valid(d1) && Valid(d2) && ValidEstimators(e)
    requires d1.contamination == d2.contamination
    requires Fit(d1, x, e).1
    ensures Fit(d2, x, e) == Fit(d1, x, e)
  {
    var a, b := Fit(d1, x, e).0, Fit(d2, x, e).0;
    assert a.modelData == b.modelData;
  }

  /** A fresh detector given fewer than 50 samples stays unfitted and keeps answering with zeros. */
  lemma SmallSampleLeavesUnfitted(contamination: real, train: seq<real>, x: seq<real>, e: Estimators)
    requires |train| < MinFitSamples && ValidEstimators(e)
    ensures var (d, ok) := Fit(Fresh(contamination), train, e);
      && !ok && !d.fitted
      && Detect(d, x, e) == Returned((seq(|x|, _ => 0), seq(|x|, _ => 0.0)))
  {
  }
}
