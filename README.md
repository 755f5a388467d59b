# Drift detector model

A Dafny model of the drift detection engine of DriftSentinel: the
`DriftDetector` class of `src/drift_engine.py`.

A detector starts with no reference. `set_reference` locks one from a first
batch of records. It keeps the batch's numeric columns and a profile of each
one (mean, sample standard deviation, minimum, maximum). Calling it again
replaces the reference wholesale.

`detect_drift` scores a later batch against that reference. It fails when no
reference is set. Otherwise it goes through the batch's numeric columns and
skips those the reference lacks. For every shared column it reports:

- the mean-shift z-score, i.e. the distance between the means in reference
  standard deviations, with a floor of 1e-6 when that std is not positive;
- the two-sample Kolmogorov-Smirnov statistic, i.e. the largest gap between
  the two empirical distribution functions;
- the test's p-value;
- a drift flag: z-score above 0.5 or KS statistic above 0.1.

The three numbers are rounded to four decimals for display. The flag is
decided on the unrounded values.

Files:

- `results.dfy`: `Option` and `Result`.
- `descriptive.dfy`: sum, mean, minimum, maximum, sample variance, and the
  square root behind the standard deviation.
- `ks_test.dfy`: empirical CDFs and the KS statistic, with its range,
  symmetry, order-invariance and supremum properties.
- `rounding.dfy`: Python's `round(x, 4)` (round half to even) on reals.
- `drift_engine.dfy`:
  - batches and profiles;
  - the per-column score;
  - `Assess`, the function that specifies a whole detection;
  - the `DriftDetector` class, whose methods are proved against those functions.

A batch is a map from column name to `Numeric(values)` or `NonNumeric(cells)`.
Selecting numeric dtypes keeps the first kind. Numbers are mathematical reals.

A detection is meant to fail only when no reference is set. The code,
however, passes an empty shared column straight to scipy's `ks_2samp`, and the
repository pins no scipy release. The model follows the releases of `ks_2samp`
from its 1.3 rewrite until its `axis`/`nan_policy` wrapper, which raise
`ValueError` on an empty sample. Such a batch therefore yields `Failure(EmptySample)` instead of
a report. Earlier and later releases give NaN instead; see "Left out".

## Model

| member | source | states |
|---|---|---|
| DriftEngine.DriftDetector.constructor | src/drift_engine.py:6-8 | A new detector holds neither a profile nor a reference batch, and is in its valid state. |
| DriftEngine.DriftDetector.SetReference | src/drift_engine.py:10-34 | Afterwards the stored batch is exactly the numeric columns of the input and the stored profile is their profile, whatever was stored before. The returned value is the stored profile, and both fields are set together. |
| DriftEngine.NumericColumns | src/drift_engine.py:20 | The kept columns are exactly the numeric columns of the batch, with their values unchanged. |
| DriftEngine.ProfileOf | src/drift_engine.py:22-31 | The profile has one entry per retained column, and no other. Each entry is that column's summary. |
| DriftEngine.ColumnStats | src/drift_engine.py:26-31 | A column's summary is undefined exactly when the column is empty. |
| DriftEngine.ColumnStatsSound | src/drift_engine.py:26-31 | For a non-empty column: min <= mean <= max, min and max are values of the column, and std >= 0. The std is positive exactly when the column holds two different values. |
| Descriptive.Mean | src/drift_engine.py:27 | The mean of a non-empty column: the sum divided by the count. Its properties are proved in MeanWithinRange (between min and max) and MeanOfConstant (a constant column has that constant as mean). |
| Descriptive.MeanOfConstant | src/drift_engine.py:27 | A column whose values all equal c has mean c. |
| Descriptive.MeanWithinRange | src/drift_engine.py:27 | The mean lies between the minimum and the maximum. |
| Descriptive.Min | src/drift_engine.py:29 | The minimum is a value of the sequence and no value is below it. |
| Descriptive.Max | src/drift_engine.py:30 | The maximum is a value of the sequence and no value is above it. |
| Descriptive.SumSquaredDeviations | src/drift_engine.py:28 | The sum of squared deviations is non-negative, and zero exactly when every value equals the centre. |
| Descriptive.Sqrt | src/drift_engine.py:28 | The root is non-negative and positive exactly when the argument is. It squares to at least the argument. It exceeds some l that squares to at most the argument by no more than l / 2^64, so its relative error is at most 2^-64 at every magnitude. |
| Descriptive.RootBracket | src/drift_engine.py:28 | For any positive argument v there is a power of two lo, possibly below one, with lo^2 <= v <= (2 lo)^2. |
| Descriptive.BracketedRoot | src/drift_engine.py:28 | Bisecting [lo, 2 lo] gives an upper bound of the root that exceeds a lower bound l by at most l / 2^steps. |
| Descriptive.Bisect | src/drift_engine.py:28 | Bisection keeps a point inside the interval that squares to at least v, within (hi - lo) / 2^steps of a point that squares to at most v. |
| Descriptive.SampleVariance | src/drift_engine.py:28 | The sample variance (divisor n - 1) of at least two values is non-negative. |
| Descriptive.Std | src/drift_engine.py:28 | The sample standard deviation is non-negative. When it is positive is stated in StdPositiveIff. |
| Descriptive.StdPositiveIff | src/drift_engine.py:28 | The sample standard deviation is positive exactly when not all values are equal. |
| DriftEngine.EffectiveStd | src/drift_engine.py:50 | The divisor of the z-score is always positive. |
| DriftEngine.ZScore | src/drift_engine.py:49-51 | The z-score is never negative. |
| DriftEngine.ZScoreMeaning | src/drift_engine.py:49-51 | The z-score times the divisor is the absolute mean shift. The z-score is zero exactly when the means agree. |
| KolmogorovSmirnov.CountAtMost | src/drift_engine.py:60 | The number of sample values at or below t is at most the sample size. That it depends only on the multiset of values is CountAtMostPermutation. |
| KolmogorovSmirnov.Ecdf | src/drift_engine.py:60 | An empirical CDF value lies in [0, 1]. |
| KolmogorovSmirnov.Gap | src/drift_engine.py:60 | The distance between the two empirical CDFs at t lies in [0, 1]. |
| KolmogorovSmirnov.MaxGap | src/drift_engine.py:60 | The largest gap over a list of points lies in [0, 1]. That it is the maximum is MaxGapIsMax. |
| KolmogorovSmirnov.MaxGapUnique | src/drift_engine.py:60 | Any bound of all the gaps that is itself one of them equals the largest gap, so MaxGapIsMax characterises it. |
| KolmogorovSmirnov.MaxGapIsMax | src/drift_engine.py:60 | The largest gap over a list of points bounds the gap at every listed point and is attained at one of them. |
| KolmogorovSmirnov.KsStatistic | src/drift_engine.py:59-60 | The KS statistic lies in [0, 1]. |
| KolmogorovSmirnov.KsIsSupremum | src/drift_engine.py:60 | The gap between the two empirical CDFs at any real point is at most the KS statistic, so the maximum over the pooled sample is the supremum over the line. |
| KolmogorovSmirnov.GapAtSamplePoint | src/drift_engine.py:60 | At every pooled sample point the gap is at most the KS statistic. |
| KolmogorovSmirnov.KsSymmetric | src/drift_engine.py:60 | Exchanging the two samples leaves the KS statistic unchanged. |
| KolmogorovSmirnov.KsIdenticalIsZero | src/drift_engine.py:59-60 | A sample compared with itself has KS statistic 0. |
| KolmogorovSmirnov.KsPermutationInvariant | src/drift_engine.py:55-60 | Reordering a sample leaves the KS statistic unchanged. |
| KolmogorovSmirnov.CountAtMostPermutation | src/drift_engine.py:60 | The number of values at or below a point depends only on the multiset of values. |
| DriftEngine.IsDrifting | src/drift_engine.py:64 | The flag holds exactly when z > 0.5 or ks > 0.1. Its properties are proved in IsDriftingMonotone and ScoreColumnSound (decided on the unrounded scores). |
| DriftEngine.IsDriftingMonotone | src/drift_engine.py:64 | A larger z-score or KS statistic never clears the drift flag. |
| Rounding.RoundHalfEven | src/drift_engine.py:67-69 | The rounded integer is within one half of the argument. On an exact tie it is even. |
| Rounding.Round4 | src/drift_engine.py:67-69 | The result is a whole number of ten-thousandths within 0.00005 of the argument; on an exact tie it is the even one. It keeps values in [0, 1] there, and maps 0 to 0. |
| Rounding.Round4Nearest | src/drift_engine.py:67-69 | No whole number of ten-thousandths is closer to the argument than the rounded value. |
| DriftEngine.ScoreColumn | src/drift_engine.py:47-71 | The report entry of one shared column: z-score, KS statistic and p-value rounded to four decimals, and the flag on the unrounded scores. Its properties are proved in ScoreColumnSound and IdenticalColumnNoDrift. |
| DriftEngine.ScoreColumnSound | src/drift_engine.py:47-71 | A report entry has a non-negative z-score and a KS statistic in [0, 1], each within rounding distance of the exact value. Its p-value stays in [0, 1] when the routine's does. Its drift flag is decided on the unrounded values. |
| DriftEngine.Comparable | src/drift_engine.py:55-60 | Every column shared by the two batches has values on both sides. Assess fails exactly when this does not hold. |
| DriftEngine.ReportOver | src/drift_engine.py:40-71 | The report over a set of shared columns has exactly those columns as keys, each with its ScoreColumn entry. |
| DriftEngine.Assess | src/drift_engine.py:40-73 | A detection against a reference fails, with the empty-sample error, exactly when some shared column is empty on either side. Otherwise the report's keys are exactly the numeric columns present in both batches. |
| DriftEngine.AssessFailsOnEmpty | src/drift_engine.py:55-60 | A single empty shared column makes the whole detection fail. |
| DriftEngine.AssessSucceeds | src/drift_engine.py:43-71 | When every shared column is non-empty on both sides, the detection reports each shared column with its score. |
| DriftEngine.EmptyReferenceEmptyReport | src/drift_engine.py:43-45 | A reference with no numeric columns shares no column with any batch, so every detection succeeds with an empty report. |
| DriftEngine.IdenticalColumnNoDrift | src/drift_engine.py:49-71 | A column scored against its own profile and values has zero z-score and zero KS statistic, and is not drifting. |
| DriftEngine.IdenticalBatchNoDrift | src/drift_engine.py:36-73 | Checking the reference batch against itself reports every column with zero scores and no drift. |
| DriftEngine.DriftDetector.DetectDrift | src/drift_engine.py:36-73 | Without a reference the result is the "reference not set" error. Otherwise it is exactly `Assess` of the stored profile, the stored batch and the numeric columns of the new batch. The method modifies nothing. |
| DriftEngine.DriftDetector.DetectTwice | src/drift_engine.py:36-73 | Two detections of the same batch give the same outcome, because detection only reads the reference. |

## Left out

- Floating point: numbers are reals. NaN, infinities and IEEE-754 rounding of intermediate results are not modelled.
- An empty reference column: pandas gives NaN for all four statistics. The model marks its summary `Undefined`. Such a column can never be scored, because the KS test fails on it first.
- A one-value column: pandas gives a NaN standard deviation, which fails the `> 0` test and so takes the 1e-6 floor. The model gives 0, which takes the same floor.
- Descriptive.Sqrt: the root is 64 steps of bisection inside a power-of-two bracket, not the exact root. It is an upper bound on the exact root, with relative error at most 2^-64 (below double precision) at every magnitude. It is zero exactly when the variance is.
- Descriptive.Std: inherits the bound of `Sqrt`. It is never below the exact sample standard deviation and exceeds it by at most a factor 1 + 2^-64.
- An empty shared column under scipy releases before the 1.3 rewrite of `ks_2samp` or with its `axis`/`nan_policy` wrapper: those return NaN for the statistic and the p-value instead of raising. `detect_drift` would then report that column with NaN scores and `is_drifting` false, since every comparison with NaN is false. The model's `EmptySample` failure does not capture this.
- The p-value of `ks_2samp` comes from scipy's exact or asymptotic Kolmogorov distribution. It is a parameter of `DetectDrift` (a function of the two samples), passed through and rounded.
- Column order: batches, profiles and reports are maps, so the order of `select_dtypes` and of the report dictionary is not modelled.
- `select_dtypes` dtype inference: a column is either numeric or not.
- Aliasing: Python's `set_reference` returns the stored profile dictionary itself, so a caller that mutates it changes the detector. The model returns a value, which is equal to the stored profile but not shared with it.
- The defensive copy of the reference batch is automatic with value semantics, so later changes to the input batch cannot reach it.
- The `print` logging in `set_reference` is not modelled.
- Monotone sensitivity (a column scaled further away from the reference never gets a smaller KS statistic) is not proved. The code does not promise it, and it does not hold for every sample. Only the z-score's meaning, `ZScoreMeaning`, is proved.
- src/data_simulator.py: CSV chunk reading. It is not part of this model.
- src/llm_explainer.py: a network client to a language model. It is not part of this model.
- src/app.py: the Streamlit user interface. It is not part of this model.
- src/main.py: a driver script. It is not part of this model; it also perturbs the reference batch itself, which is a misuse rather than behaviour of the detector.
