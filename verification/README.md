# Anomaly-detection core of the market-monitoring dashboard, in Dafny

This project models the detection core of a Streamlit dashboard that
watches a univariate market series. Five detectors make up the core:

- a rolling **statistical detector**: z-score, IQR fences, modified z-score on the MAD, and a Grubbs test, combined with weights 0.3 / 0.3 / 0.2 / 0.2;
- a **machine-learning ensemble**: isolation forest, elliptic envelope, LOF and one-class SVM, which vote;
- a simulated **reconstruction-residual detector**, an autoencoder stand-in;
- a **drift monitor**: KS, PSI, Jensen-Shannon, mean shift and variance ratio, combined into one drift score;
- a Gaussian-mixture **market regime detector**.

Around them sit:

- the **alert log**;
- the **duration formatter** used in the dashboard's status lines;
- the **rule-based regime labeller** of the multivariate dataset;
- the caller's **ensemble score**, which weights the three detectors 0.35 / 0.35 / 0.3.

Every detector is a pure function over an immutable state value. Its
`fit`, `detect` or `add` returns the new state next to the answer.
Each collaborator from numpy, scipy or scikit-learn whose internals are out
of scope becomes a function-valued parameter. That parameter is constrained
only by the facts the code relies on:

| module | parameter | what it stands for |
|---|---|---|
| `Numerics` | `Numerics` | square root, natural log, Student-t quantile |
| `MLEnsemble` | `Estimators` | the scaler, the fit failures and the four models' `predict` |
| `DriftDetection` | `Divergences` | `ks_2samp`, the histogram counts and the JS computation |
| `RegimeDetection` | `Oracles` | price changes, window summaries and the mixture posterior |

Wall-clock readings (`datetime.now()`) and random draws are inputs.

Modules, one per file:

| file | module | what it holds |
|---|---|---|
| `wrappers.dfy` | `Wrappers` | `Option`, `Outcome` (returned value or raised exception), `Min`, `Abs`, `Instant` |
| `buffers.dfy` | `Buffers` | `deque(maxlen=…)` appends and Python's `s[-n:]` |
| `descriptive.dfy` | `Descriptive` | numpy `mean`, `var`, linear-interpolation `percentile` and `median` |
| `numerics.dfy` | `Numerics` | the floating-point functions |
| `statistical.dfy` | `StatisticalDetection` | the statistical detector |
| `ml_ensemble.dfy` | `MLEnsemble` | the voting ensemble |
| `reconstruction.dfy` | `Reconstruction` | the residual detector |
| `drift.dfy` | `DriftDetection` | the drift monitor |
| `decimal.dfy` | `Decimal` | decimal rendering and reading of naturals |
| `regime.dfy` | `RegimeDetection` | the mixture regime detector |
| `alerts.dfy` | `AlertLog` | the alert manager |
| `duration.dfy` | `Duration` | `format_timedelta` |
| `rule_labeller.dfy` | `RuleLabeller` | the rule-based regime labels |
| `ensemble.dfy` | `EnsembleScore` | the combined per-point score |

## Model

| member | source | states |
|---|---|---|
| Buffers.Push | app.py:1118-1122 | appending to a full deque drops exactly the oldest element; the result is the newest `maxlen` of old-plus-new and ends with the new value |
| Buffers.PushLastN | app.py:1118-1122 | trimming to the newest `cap` and then appending equals appending and then trimming, so a deque is always the newest `cap` of its history |
| Buffers.PySuffix | app.py:1293 | `s[-n:]` is a suffix of `s`: the last `n` elements for `n > 0`, the whole sequence for `n == 0`, the sequence minus its first `-n` elements for `n < 0` |
| Descriptive.Percentile | app.py:1136-1137 | numpy's linear-interpolation percentile lies between two sample values |
| Descriptive.Median | app.py:1144 | numpy's median (middle order statistic, or the mean of the two middle ones) lies between two sample values |
| Descriptive.MaxAbsDeviation | app.py:1150 | `max(abs(data - mean))` bounds every point's deviation and is attained by one of them |
| Descriptive.PercentileMonotone | app.py:1136-1138 | a higher percentile is never smaller, so `Q1 <= Q3` and the IQR is non-negative |
| Descriptive.MedianIsPercentile50 | app.py:1144-1145 | `np.median` (middle order statistic, or mean of the two middle ones) equals the 50th percentile |
| Descriptive.PercentilePositionMonotone | app.py:1136-1137 | a higher percentile reads a later position among the order statistics |
| Descriptive.MedianOfConstant | app.py:1144 | the median of a constant sample is that constant |
| Descriptive.Blend | app.py:1136-1137 | linear interpolation between two ordered values stays between them |
| Descriptive.VarianceNonNegative | app.py:1131 | population variance is non-negative, so `np.std` is defined |
| Descriptive.Sort | app.py:1136-1137 | the ascending rearrangement numpy reads order statistics from: sorted, of the same length, and a permutation (same multiset) of the sample |
| StatisticalDetection.Std | app.py:1131 | `np.std` is non-negative and zero on a constant buffer |
| StatisticalDetection.ZScore | app.py:1130-1132 | the z-score of a value equal to every buffered value is zero |
| StatisticalDetection.IqrFences | app.py:1136-1140 | the lower fence never exceeds the upper one for a non-negative multiplier; a constant buffer has both fences at its value |
| StatisticalDetection.Mad | app.py:1144-1145 | the median absolute deviation is non-negative and zero on a constant buffer |
| StatisticalDetection.ModifiedZ | app.py:1146 | the modified z-score of a value equal to every buffered value is zero |
| StatisticalDetection.Grubbs | app.py:1150-1153 | the Grubbs statistic and critical value are non-negative; the statistic is 0 when the spread is 0 |
| StatisticalDetection.RunTests | app.py:1129-1154 | each sub-test fires exactly on its own condition: z-score and modified z beyond the threshold, value outside the fences, statistic beyond the critical value |
| StatisticalDetection.RawScore | app.py:1157-1162 | the unclamped weighted score is non-negative |
| StatisticalDetection.Evaluate | app.py:1156-1174 | `is_anomaly` is decided on the unclamped weighted sum (`> 0.5`), and only the reported score is clamped, to `min(sum, 1)`; the details report the four statistics, and `methods_triggered` counts how many of the four flags are raised |
| StatisticalDetection.Detect | app.py:1120-1127 | the buffer gains the value and keeps the newest `window_size`; below ten buffered values the verdict is `(False, 0.0, {})`, otherwise the full evaluation of the buffer |
| StatisticalDetection.Run | app.py:1120-1174 | feeding values one by one yields one verdict per value, each in range and flagged exactly above 0.5 |
| StatisticalDetection.RunKeepsNewest | app.py:1118-1122 | after any run the buffer is the newest `window_size` values of everything fed |
| StatisticalDetection.RunVerdict | app.py:1120-1127 | the `i`-th verdict of a run is the detector's answer to value `i` after the first `i` values |
| StatisticalDetection.ColdStartIsQuiet | app.py:1124-1125 | the first nine verdicts of a fresh detector are the quiet verdict, whatever the values |
| StatisticalDetection.ConstantBufferIsQuiet | app.py:1129-1164 | a buffer of identical values scores 0, is not anomalous and triggers no method |
| StatisticalDetection.LastVerdictOfShortRun | app.py:1120-1127 | while the window holds the whole run, the last verdict judges the whole run |
| StatisticalDetection.SpikeIsFlagged | app.py:1129-1164 | twenty readings of 10 followed by 100 get the last reading flagged with a score above 0.5 under the default configuration |
| MLEnsemble.Fit | app.py:1204-1219 | fewer than 50 samples change nothing and return False; otherwise the scaler is refitted on the sample; `fit` returns True exactly when no model raises, and then all four models are fitted on the scaled sample and `fitted` is set; when model k raises, the models before it are refitted, the rest keep their fit, and `fitted` keeps its value |
| MLEnsemble.RefitForgetsHistory | app.py:1204-1219 | a successful fit leaves two detectors with the same contamination identical, whatever earlier fits left behind |
| MLEnsemble.CountIsMultiplicity | app.py:1241-1242 | counting outlier votes one by one equals the multiplicity of -1 in the ballot |
| MLEnsemble.Ballots | app.py:1226-1241 | one ballot per point, holding in order the forest's, the envelope's (all inlier if its `predict` raised), the LOF's and the SVM's votes on the scaled input; it raises exactly when the forest, LOF or SVM `predict` raises |
| MLEnsemble.VoteScore | app.py:1242 | a point's score is the share of outlier votes, one of 0, 0.25, 0.5, 0.75, 1 |
| MLEnsemble.Detect | app.py:1221-1247 | unfitted: all-zero labels and scores; fitted: per point the outlier share of the ballot, labelled 1 exactly when at least two of four models vote outlier; it raises exactly when fitted and the forest, LOF or SVM `predict` raises |
| MLEnsemble.ScoresAreQuantised | app.py:1242 | every ensemble score is a multiple of 0.25 in [0, 1] |
| MLEnsemble.EnvelopeFailureVotesNormal | app.py:1232-1235 | an elliptic envelope that raises gives exactly the result of an envelope voting inlier everywhere |
| MLEnsemble.SmallSampleLeavesUnfitted | app.py:1204-1224 | a fresh detector given fewer than 50 samples stays unfitted and answers zeros |
| Reconstruction.Fit | app.py:1258-1265 | the threshold is exactly the configured `threshold_percentile` of the simulated errors, so it lies between the smallest and the largest error; the configured percentile is kept; an empty sample raises |
| Reconstruction.FitThresholdMonotone | app.py:1262-1265 | on the same errors, a higher configured percentile never calibrates a lower threshold |
| Reconstruction.Residuals | app.py:1270 | residuals are non-negative and the first is 0, because the series is differenced against its own first value |
| Reconstruction.Score | app.py:1275-1278 | a score lies in [0, 2], and clipping preserves the `> 1` decision on the unclipped ratio |
| Reconstruction.Label | app.py:1276 | the label is 1 exactly when the clipped score exceeds 1 |
| Reconstruction.Detect | app.py:1267-1278 | an existing threshold is kept; a missing one is latched at the 95th percentile of this batch's residuals; each score and label derive from the point's residual and that threshold; an empty batch raises |
| Reconstruction.DetectScoresAndLabels | app.py:1267-1278 | every score is in [0, 2], flagged exactly above 1, and the first point is never flagged |
| Reconstruction.RepeatDetectIsStable | app.py:1272-1273 | once the threshold is latched, detecting the same batch again gives the same labels and scores |
| Reconstruction.ScoreMonotoneInResidual | app.py:1275-1278 | under a fixed threshold a larger residual never gets a smaller score or label |
| DriftDetection.SetReference | app.py:1291-1300 | the reference is always replaced by `data[-reference_window:]`; the call raises exactly when that slice is empty, and then caches no summary; otherwise the summary is the slice's mean, population std, median, 25th and 75th percentiles, with `q25 <= median <= q75` |
| DriftDetection.Share | app.py:1362-1367 | bucket shares are positive, and equal to count over size when the count is positive |
| DriftDetection.PsiTerms | app.py:1369 | with a logarithm of the right sign, every term `(cur - ref) * ln(cur / ref)` and hence their sum is non-negative, so the `abs` at line 1370 never changes the index |
| DriftDetection.PsiTermNonNegative | app.py:1369 | a bucket whose share moves away from its reference share, in either direction, adds a non-negative amount |
| DriftDetection.Psi | app.py:1355-1372 | the population stability index is non-negative, and 0 when the histogram raises |
| DriftDetection.PsiOfItself | app.py:1355-1370 | a sample compared with itself has stability index 0 |
| DriftDetection.Js | app.py:1374-1389 | the divergence is non-negative, and 0 when the computation raises |
| DriftDetection.DriftScore | app.py:1326-1332 | the combined drift score lies in [0, 1] |
| DriftDetection.FullScoreNeedsEveryMeasure | app.py:1326-1332 | the score reaches 1 exactly when every capped measure is at its cap |
| DriftDetection.Judge | app.py:1307-1345 | the details report the KS result, PSI, JS divergence, both means, the mean shift `abs(current_mean - reference_mean) / (std + 1e-8)` and the variance drift `abs(log(var(current) / (var(reference) + 1e-8)))`; the score is the capped weighted combination of exactly these reported measures, lies in [0, 1], and flags drift exactly when it exceeds the threshold |
| DriftDetection.DetectDrift | app.py:1302-1353 | without a reference or with fewer than ten points: `(False, 0.0, {})` and no record; past that guard it raises exactly when the reference or `current[-detection_window:]` is empty, and otherwise returns exactly the judgement of the reference against that tail and appends exactly one record with its score and flag; reference and configuration never change |
| DriftDetection.EmptyReferenceKeepsRaising | app.py:1291-1306 | an empty reference slice is stored although `set_reference` raises, and every later call past the guard raises |
| DriftDetection.DriftIsDeterministic | app.py:1302-1353 | judging the same data twice gives the same judgement and leaves two records |
| DriftDetection.JudgeItself | app.py:1313-1319 | judging the reference sample against itself gives PSI 0 and mean shift 0 |
| DriftDetection.SelfComparisonShowsNoShift | app.py:1291-1319 | with equal windows, a series judged against a reference set from itself shows PSI 0 and mean shift 0 |
| Decimal.NatToString | app.py:1459 | renderings are non-empty digit strings without leading zeros |
| Decimal.ValueOfNatToString | app.py:1459 | reading a rendering back gives the number rendered |
| Decimal.NatToStringInjective | app.py:1459 | different numbers render differently |
| RegimeDetection.Returns | app.py:1418 | one relative change per consecutive pair of prices |
| RegimeDetection.Fresh | app.py:1395-1399 | a new detector keeps its number of components and starts unfitted |
| RegimeDetection.FreshReportsNothing | app.py:1443-1446 | a detector that was never fitted reports no regime, whatever data it is shown |
| RegimeDetection.ExtractFeatures | app.py:1413-1430 | None exactly below `window` points; otherwise `len(data) - window` rows (one for empty data with window 0), row `j` summarising returns `j` to `j + window` |
| RegimeDetection.Fit | app.py:1432-1441 | succeeds exactly with at least ten rows per regime; a refusal changes nothing; success records the training rows |
| RegimeDetection.ArgMax | app.py:1454-1455 | the predicted component is the first most probable one |
| RegimeDetection.RegimeName | app.py:1400-1405 | components 0 to 3 are named Bullish Momentum, Bearish Decline, Consolidation and High Volatility; any other component is `Regime k`, and only those fallback names start with `R` |
| RegimeDetection.RegimeColor | app.py:1406-1411 | every colour is a `#rrggbb` string: `#` followed by six hexadecimal digits; white beyond the four named components |
| RegimeDetection.RegimeNamesDistinct | app.py:1400-1405 | no two components share a name |
| RegimeDetection.DetectRegime | app.py:1443-1463 | a report exists exactly when fitted and given at least `window + 1` points; it describes the newest feature row of the last `window + 10` points; its confidence is the largest posterior probability, held first by the reported regime |
| RegimeDetection.ConfidenceAtLeastUniform | app.py:1454-1461 | the confidence is never below `1 / n_regimes` |
| RegimeDetection.LargestShareAtLeastUniform | app.py:1461 | the largest of `n` non-negative shares summing to 1 is at least `1 / n` |
| RegimeDetection.MajorityRegimeIsUnique | app.py:1454-1461 | a confidence above one half leaves every other component below one half |
| AlertLog.AlertOf | app.py:1475-1481 | an alert records type, severity and time; missing details become `{}` |
| AlertLog.AddAlert | app.py:1473-1483 | the log is the newest `max_alerts` of old-plus-new; the counter of the alert's type goes up by one and no other counter changes |
| AlertLog.AddAll | app.py:1473-1483 | any sequence of `add_alert` calls keeps the log within `max_alerts` and the counters positive |
| AlertLog.LogKeepsNewest | app.py:1470-1482 | after any sequence of additions the log is the newest `max_alerts` of everything added |
| AlertLog.CountersCountEverything | app.py:1471-1483 | each counter is the number of alerts of its type ever added, evicted ones included |
| AlertLog.AlertSummary | app.py:1492-1494 | the summary holds only counted types, each at least 1, with the log's counts |
| AlertLog.SummaryCountsRequests | app.py:1481-1494 | from an empty manager, the summary of a type is the number of additions of that type |
| AlertLog.Filter | app.py:1488-1489 | an empty or absent filter keeps the list as it is |
| AlertLog.FilterCounts | app.py:1488-1489 | each alert whose severity matches is kept exactly as often as it occurs, identical alerts included, and every other alert is dropped |
| AlertLog.FilterAppend | app.py:1488-1489 | filtering distributes over concatenation, so the kept alerts stay in their original relative order |
| AlertLog.ReverseFilterIsNewestMatching | app.py:1488-1490 | filtering and then reversing is the same as walking the list from its newest alert back, keeping the matching ones |
| AlertLog.NewestFirst | app.py:1488-1490 | the filtered, reversed list is the newest-first walk of the matching alerts, holds each matching alert as often as the window does, and is the reversed window when there is no filter |
| AlertLog.RecentAlertsAsWritten | app.py:1485-1490 | the result is the matching alerts of `alerts[-n:]`, newest first, each as often as it occurs there |
| AlertLog.ZeroRecentReturnsEverything | app.py:1487 | asking for zero recent alerts returns the whole log, newest first |
| AlertLog.RecentAlerts | app.py:1485-1490 | at most `n` alerts: the matching ones among the newest `n`, newest first, each as often as it occurs there; unfiltered, exactly the newest `min(n, len)` alerts in reverse order |
| AlertLog.RecentAlertsAgreeForPositiveCounts | app.py:1487 | for `n > 0` the code as written and the corrected reading agree |
| AlertLog.ZeroRecentIsEmpty | app.py:1487 | under the corrected reading, zero recent alerts is the empty list |
| Duration.TruncateTowardZero | app.py:1891 | `int()` on a float moves toward zero by less than one |
| Duration.Decompose | app.py:1898-1900 | days, hours, minutes and seconds recompose to the total, with each of the last three below its unit's range |
| Duration.FormatSeconds | app.py:1895-1912 | "n/a" exactly for non-positive totals |
| Duration.FormatTimedelta | app.py:1885-1912 | "n/a" exactly for a missing or unreadable delta or one under one second |
| Duration.ParsePartText | app.py:1904-1910 | the text of one part reads back as that part, leaving whatever followed |
| Duration.ParseJoin | app.py:1912 | joined parts read back as the same parts |
| Duration.FormatReadsBack | app.py:1898-1912 | a formatted positive duration reads back as exactly the parts shown |
| Duration.ShownIsCloseBelow | app.py:1898-1912 | the shown amount never exceeds the duration and is short by less than an hour |
| Duration.SecondsOnlyUnderAMinute | app.py:1902-1910 | seconds are shown exactly under one minute, and then as the whole duration |
| Duration.ShownPartsAreOrdered | app.py:1902-1912 | at most two non-zero parts are shown, larger unit first |
| RuleLabeller.DeriveThresholds | app.py:1956-1959 | `ret_low <= ret_high` and `vol_low <= vol_high`; the high thresholds are reached by some point |
| RuleLabeller.Label | app.py:1962-1970 | every label is in 0..3; 3 exactly when volatility reaches `vol_high`; 0 exactly when volatility is below `vol_high` and the return reaches `ret_high` (ties between the return thresholds included); 1 only for a return at most `ret_low` with volatility in `[vol_low, vol_high)` |
| RuleLabeller.LabelRegions | app.py:1963-1970 | below `vol_high` the cascade splits into three regions, in both directions, and the `v <= vol_high` test of rule 0 never decides anything; when the return thresholds tie (flat returns), the bearish region shrinks to `r < ret_low` |
| RuleLabeller.Labels | app.py:1950-1971 | one label per point: all 0 below ten points, otherwise the cascade under the derived thresholds |
| RuleLabeller.MostVolatileIsHighVolatility | app.py:1958-1964 | in a series of ten or more points the most volatile point is labelled 3 |
| RuleLabeller.ConstantVolatilityIsAllHighVolatility | app.py:1958-1964 | constant volatility labels every point 3 |
| EnsembleScore.Combine | app.py:2962 | for detector scores in their ranges the combined score lies in [0, 1.3] |
| EnsembleScore.CombineSeries | app.py:2962-2963 | one combined score per point, flagged exactly above 0.5 |
| EnsembleScore.ResidualAloneFlags | app.py:2962-2963 | with the other two detectors silent, a point is flagged exactly when the residual score exceeds 5/3 |
| EnsembleScore.WithoutResidualFlags | app.py:2962-2963 | with the residual detector silent, a point is flagged exactly when the other two scores sum above 10/7 |
| EnsembleScore.NoSingleScoreDetectorFlags | app.py:2962-2963 | neither the statistical nor the ML detector can flag a point alone |

## Left out

- Floating point: all arithmetic is on mathematical reals. Overflow, `inf`, `nan` and numpy's runtime warnings are not modelled. Examples are a zero price in a return, a zero variance ratio under `log`, and a `nan` from the mean of an empty slice.
- numpy, scipy and scikit-learn internals are parameters constrained only by their ranges:
  - `sqrt` and `log`, and the Student-t quantile;
  - the KS test, the histogram bucket counts and the Jensen-Shannon computation;
  - the StandardScaler, the four outlier models and the Gaussian mixture;
  - `skew` and `kurtosis`.
- `datetime.now()` is a caller-supplied integer `Instant`, and alert timestamps are not interpreted.
- The random draws of the reconstruction detector (`np.random.exponential`, `np.random.uniform`) are inputs. The model keeps their ranges: non-negative errors and multipliers in [0.5, 1.5].
- Integer versus float zeros (`0` against `0.0` in the returned tuples and arrays) are not distinguished.
- StatisticalDetection.Detect: requires `z_threshold > 0`. Dividing by a zero threshold gives numpy infinities, which the real-valued model cannot express.
- RegimeDetection.Fresh: the mixture needs at least one component, so `Valid` requires `n_regimes >= 1`.
- RegimeDetection.ExtractFeatures: windows are natural numbers. A negative window is not modelled.
- RegimeDetection.Fit: an exception from the mixture's `fit` is not modelled.
- MLEnsemble.Detect: the isolation forest's `score_samples`, computed and discarded at line 1230, is not modelled. The model does not capture that an exception from it would escape.
- MLEnsemble.Fit: a model whose `fit` raises is taken to keep its previous fit. The models after it are not refitted.
- DriftDetection.SetReference: after the exception on an empty slice, the summary from an earlier call survives in the code, while the model keeps none. No later computation can read it, because `ks_2samp` raises on the empty reference first.
- The drift history is unbounded, as in the code.
- DriftDetection.PsiTerms: its sign is stated only for a logarithm that is positive above 1 and negative below 1 (`LogKeepsSign`); the other measures assume nothing about `log`.
- Reconstruction.Fresh: the configured `threshold_percentile` must lie in [0, 100]. In the code an out-of-range value makes `np.percentile` raise inside `fit`; the model excludes it, and the code itself only ever uses 95.
- MLEnsemble.Fit: `contamination` is stored but changes no result in the model, because the estimator oracle stands for the four models as built with it.
- Reconstruction.Detect: the unused `history` attribute of the detector is not modelled.
- RuleLabeller.Labels: the return, volatility and momentum series are inputs. They come from pandas `pct_change`, `rolling(20).std()` and fills, which are not modelled. Every real is finite, so the fallback thresholds for an all-non-finite series never apply.
- The user interface, plotting, data simulation and loading, streaming and session state are outside the detection core.

## Findings

| source | as written | input that shows it | evidently intended | confidence | as-written member | corrected member |
|---|---|---|---|---|---|---|
| app.py:1487 | `list(self.alerts)[-n:]` with `n = 0` is `[-0:]`, the whole list | `get_recent_alerts(0)` on a non-empty log returns every alert | the `n` most recent alerts, so none for `n = 0` | medium, not executed | AlertLog.RecentAlertsAsWritten (shown by AlertLog.ZeroRecentReturnsEverything) | AlertLog.RecentAlerts (with AlertLog.ZeroRecentIsEmpty and AlertLog.RecentAlertsAgreeForPositiveCounts) |
