/**
  The caller's combination of the three detectors' per-point scores:
  `0.35 * statistical + 0.35 * ml + 0.3 * reconstruction`, anomalous when
  the combined score exceeds 0.5.
 */
module EnsembleScore {

  const StatWeight: real := 0.35
  const MlWeight: real := 0.35
  const DeepWeight: real := 0.3
  const Cutoff: real := 0.5

  /** The score ranges the three detectors guarantee: [0,1], [0,1] and [0,2]. */
  predicate InRange(stat: real, ml: real, deep: real)
  {
    0.0 <= stat <= 1.0 && 0.0 <= ml <= 1.0 && 0.0 <= deep <= 2.0
  }

  function Combine(stat: real, ml: real, deep: real): (s: real)
    ensures InRange(stat, ml, deep) ==> 0.0 <= s <= 1.3
  {
    StatWeight * stat + MlWeight * ml + DeepWeight * deep
  }

  /** Per-point combined scores and flags over three aligned score series. */
  function CombineSeries(stat: seq<real>, ml: seq<real>, deep: seq<real>): (r: (seq<real>, seq<bool>))
    requires |stat| == |ml| == |deep|
    ensures |r.0| == |stat| && |r.1| == |stat|
    ensures forall i :: 0 <= i < |stat| ==> (r.1[i] <==> r.0[i] > Cutoff)
    ensures forall i :: 0 <= i < |stat| && InRange(stat[i], ml[i], deep[i]) ==> 0.0 <= r.0[i] <= 1.3
  {
    var scores := seq(|stat|, i requires 0 <= i < |stat| => Combine(stat[i], ml[i], deep[i]));
    (scores, seq(|stat|, i requires 0 <= i < |stat| => scores[i] > Cutoff))
  }

  /** With the other two detectors silent, the residual detector alone flags a point exactly when its score exceeds 5/3. */
  lemma ResidualAloneFlags(deep: real)
    ensures Combine(0.0, 0.0, deep) > Cutoff <==> deep > 5.0 / 3.0
  {
  }

  /** With the residual detector silent, a point is flagged exactly when the other two scores sum above 10/7. */
  lemma WithoutResidualFlags(stat: real, ml: real)
    ensures Combine(stat, ml, 0.0) > Cutoff <==> stat + ml > 10.0 / 7.0
  {
  }

  /** Neither the statistical nor the ML detector can flag a point on its own. */
  lemma NoSingleScoreDetectorFlags(stat: real, ml: real)
    requires 0.0 <= stat <= 1.0 && 0.0 <= ml <= 1.0
    ensures Combine(stat, 0.0, 0.0) <= Cutoff && Combine(0.0, ml, 0.0) <= Cutoff
  {
  }
}
