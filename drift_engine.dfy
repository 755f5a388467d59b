/**
 * The drift detector: it locks a reference profile from a first batch and
 * scores later batches against it, column by column, with a mean-shift
 * z-score and the two-sample Kolmogorov-Smirnov distance.
 */
module DriftEngine {
  import opened Results
  import opened Descriptive
  import opened KolmogorovSmirnov
  import opened Rounding

  /** A column of a batch: numeric (what select_dtypes keeps) or anything else. */
  datatype Column = Numeric(values: seq<real>) | NonNumeric(cells: seq<string>)

  /** A batch of records, column by column. */
  type Frame = map<string, Column>

  /** Retained numeric columns, by name. */
  type Columns = map<string, seq<real>>

  /** The numeric columns of a frame, with their values. */
  function NumericColumns(frame: Frame): (cols: Columns)
    ensures forall c :: c in cols <==> c in frame && frame[c].Numeric?
    ensures forall c :: c in cols ==> frame[c] == Numeric(cols[c])
  {
    map c | c in frame && frame[c].Numeric? :: frame[c].values
  }

  /**
   * Summary statistics of one reference column. An empty column has no
   * mean, std, min or max (pandas reports NaN for all four): Undefined.
   */
  datatype Stats = Stats(mean: real, std: real, min: real, max: real) | Undefined

  type Profile = map<string, Stats>

  function ColumnStats(xs: seq<real>): (s: Stats)
    ensures s.Undefined? <==> |xs| == 0
  {
    if |xs| == 0 then Undefined else Stats(Mean(xs), Std(xs), Min(xs), Max(xs))
  }

  /**
   * The summary of a non-empty column is consistent: its minimum and maximum
   * are values of the column with the mean between them, and its std is
   * non-negative and positive exactly when the column holds two different values.
   */
  lemma ColumnStatsSound(xs: seq<real>)
    requires |xs| > 0
    ensures var s := ColumnStats(xs);
      && s.min <= s.mean <= s.max
      && s.min in xs && s.max in xs
      && s.std >= 0.0
      && (s.std > 0.0 <==> !AllEqual(xs))
  {
    MeanWithinRange(xs);
    StdPositiveIff(xs);
  }

  /** The profile of a set of reference columns: one summary per column. */
  function ProfileOf(cols: Columns): (profile: Profile)
    ensures profile.Keys == cols.Keys
    ensures forall c :: c in profile ==> profile[c] == ColumnStats(cols[c])
  {
    map c | c in cols :: ColumnStats(cols[c])
  }

  /** Fixed thresholds of the drift decision and the floor for a zero std. */
  const ZThreshold: real := 0.5
  const KsThreshold: real := 0.1
  const StdFloor: real := 1e-6

  /** The divisor of the z-score: the reference std when positive, else the floor. */
  function EffectiveStd(std: real): (d: real)
    ensures d > 0.0
  {
    if std > 0.0 then std else StdFloor
  }

  /** How many reference standard deviations the current mean lies from the reference mean. */
  function ZScore(refMean: real, refStd: real, curMean: real): (z: real)
    ensures z >= 0.0
  {
    Abs(curMean - refMean) / EffectiveStd(refStd)
  }

  /**
   * The z-score measures the mean shift in units of the effective std: z
   * times that std is the shift, so z is 0 exactly when the means agree.
   */
  lemma ZScoreMeaning(refMean: real, refStd: real, curMean: real)
    ensures var z := ZScore(refMean, refStd, curMean);
      && z * EffectiveStd(refStd) == Abs(curMean - refMean)
      && (z == 0.0 <==> curMean == refMean)
  {
  }

  /** Drift when either the mean moved or the distribution shape changed. */
  function IsDrifting(z: real, ks: real): bool
  {
    z > ZThreshold || ks > KsThreshold
  }

  /** A larger z-score or KS statistic never clears the drift flag. */
  lemma IsDriftingMonotone(z: real, ks: real, z': real, ks': real)
    requires z <= z' && ks <= ks'
    ensures IsDrifting(z, ks) ==> IsDrifting(z', ks')
  {
  }

  /** One entry of the drift report, with the three numbers rounded for display. */
  datatype ColumnDrift = ColumnDrift(zScore: real, ksStatistic: real, pValue: real, isDrifting: bool)

  type Report = map<string, ColumnDrift>

  /** The p-value routine of the two-sample KS test, computed by the statistics library. */
  type PValueRoutine = (seq<real>, seq<real>) -> real

  datatype DriftError =
    | ReferenceNotSet  // detect_drift before set_reference
    | EmptySample      // ks_2samp, from 1.3 until its nan_policy wrapper, refuses an empty sample

  /** The report entry for one column present in both the reference and the current batch. */
  function ScoreColumn(stats: Stats, refValues: seq<real>, curValues: seq<real>, pValue: real): ColumnDrift
    requires stats.Stats? && |refValues| > 0 && |curValues| > 0
  {
    var z := ZScore(stats.mean, stats.std, Mean(curValues));
    var ks := KsStatistic(refValues, curValues);
    ColumnDrift(Round4(z), Round4(ks), Round4(pValue), IsDrifting(z, ks))
  }

  /**
   * A report entry: the z-score is non-negative and the KS statistic in
   * [0, 1], each within rounding distance of the exact value; the p-value
   * stays in [0, 1]; and the drift flag is decided on the unrounded values.
   */
  lemma ScoreColumnSound(stats: Stats, refValues: seq<real>, curValues: seq<real>, pValue: real)
    requires stats.Stats? && |refValues| > 0 && |curValues| > 0
    ensures var d := ScoreColumn(stats, refValues, curValues, pValue);
      var z := ZScore(stats.mean, stats.std, Mean(curValues));
      var ks := KsStatistic(refValues, curValues);
      && d.zScore >= 0.0 && 0.0 <= d.ksStatistic <= 1.0
      && (0.0 <= pValue <= 1.0 ==> 0.0 <= d.pValue <= 1.0)
      && Abs(d.zScore - z) <= 0.00005
      && Abs(d.ksStatistic - ks) <= 0.00005
      && (d.isDrifting <==> z > ZThreshold || ks > KsThreshold)
  {
    var z := ZScore(stats.mean, stats.std, Mean(curValues));
    var ks := KsStatistic(refValues, curValues);
    assert ScoreColumn(stats, refValues, curValues, pValue)
      == ColumnDrift(Round4(z), Round4(ks), Round4(pValue), IsDrifting(z, ks));
  }

  /** Column c is in both batches and has values in each, so ks_2samp accepts it. */
  predicate NonEmptyOnBothSides(c: string, refCols: Columns, cur: Columns)
  {
    c in refCols && c in cur && |refCols[c]| > 0 && |cur[c]| > 0
  }

  /** Every column shared by the reference and the current batch has values on both sides. */
  predicate Comparable(refCols: Columns, cur: Columns)
  {
    forall c :: c in cur && c in refCols ==> NonEmptyOnBothSides(c, refCols, cur)
  }

  /** The columns in keys have values on both sides and a defined reference summary. */
  predicate Scorable(keys: set<string>, profile: Profile, refCols: Columns, cur: Columns)
  {
    forall c :: c in keys ==> NonEmptyOnBothSides(c, refCols, cur) && c in profile && profile[c].Stats?
  }

  /** The report entries for the given shared columns. */
  function ReportOver(keys: set<string>, profile: Profile, refCols: Columns, cur: Columns, pValueOf: PValueRoutine): (report: Report)
    requires Scorable(keys, profile, refCols, cur)
    ensures report.Keys == keys
  {
    map c | c in keys :: ScoreColumn(profile[c], refCols[c], cur[c], pValueOf(refCols[c], cur[c]))
  }

  /** A report whose every entry is its column's score is the report over its keys. */
  lemma ReportOverByEntries(keys: set<string>, report: Report, profile: Profile, refCols: Columns, cur: Columns, pValueOf: PValueRoutine)
    requires Scorable(keys, profile, refCols, cur)
    requires report.Keys == keys
    requires forall c :: c in report ==> report[c] == ScoreColumn(profile[c], refCols[c], cur[c], pValueOf(refCols[c], cur[c]))
    ensures report == ReportOver(keys, profile, refCols, cur, pValueOf)
  {
  }

  /**
   * The outcome of a drift check against an established reference: a report
   * over the shared numeric columns, or the error ks_2samp raises for an
   * empty sample.
   */
  function Assess(profile: Profile, refCols: Columns, cur: Columns, pValueOf: PValueRoutine): (r: Result<Report, DriftError>)
    requires profile == ProfileOf(refCols)
    ensures r.Failure? <==> exists c :: c in cur && c in refCols && (|cur[c]| == 0 || |refCols[c]| == 0)
    ensures r.Failure? ==> r.error == EmptySample
    ensures r.Success? ==> r.value.Keys == cur.Keys * refCols.Keys
  {
    if !Comparable(refCols, cur) then Failure(EmptySample)
    else Success(ReportOver(cur.Keys * refCols.Keys, profile, refCols, cur, pValueOf))
  }

  /** A shared column that is empty on either side makes the whole check fail. */
  lemma AssessFailsOnEmpty(c: string, profile: Profile, refCols: Columns, cur: Columns, pValueOf: PValueRoutine)
    requires profile == ProfileOf(refCols)
    requires c in cur && c in refCols && (|cur[c]| == 0 || |refCols[c]| == 0)
    ensures Assess(profile, refCols, cur, pValueOf) == Failure(EmptySample)
  {
  }

  /** When every shared column has values on both sides, the detection reports all of them. */
  lemma AssessSucceeds(profile: Profile, refCols: Columns, cur: Columns, pValueOf: PValueRoutine)
    requires profile == ProfileOf(refCols)
    requires Scorable(cur.Keys * refCols.Keys, profile, refCols, cur)
    ensures Assess(profile, refCols, cur, pValueOf) == Success(ReportOver(cur.Keys * refCols.Keys, profile, refCols, cur, pValueOf))
  {
  }

  /** A non-empty reference column has defined statistics in the profile. */
  lemma ProfileEntryDefined(c: string, profile: Profile, refCols: Columns)
    requires profile == ProfileOf(refCols)
    requires c in refCols && |refCols[c]| > 0
    ensures c in profile && profile[c].Stats?
  {
  }

  /** A column scored against its own profile and values: no shift, no gap, no drift. */
  lemma IdenticalColumnNoDrift(xs: seq<real>, pValue: real)
    requires |xs| > 0
    ensures var d := ScoreColumn(ColumnStats(xs), xs, xs, pValue);
      d.zScore == 0.0 && d.ksStatistic == 0.0 && !d.isDrifting
  {
    var stats := ColumnStats(xs);
    ZScoreMeaning(stats.mean, stats.std, Mean(xs));
    KsIdenticalIsZero(xs);
    assert ScoreColumn(stats, xs, xs, pValue)
      == ColumnDrift(Round4(0.0), Round4(0.0), Round4(pValue), IsDrifting(0.0, 0.0));
  }

  /**
   * Checking the reference batch against itself reports every non-empty
   * column, each with zero z-score, zero KS statistic and no drift.
   */
  lemma IdenticalBatchNoDrift(refCols: Columns, pValueOf: PValueRoutine)
    requires forall c :: c in refCols ==> |refCols[c]| > 0
    ensures var r := Assess(ProfileOf(refCols), refCols, refCols, pValueOf);
      && r.Success?
      && r.value.Keys == refCols.Keys
      && forall c :: c in r.value ==> r.value[c].zScore == 0.0 && r.value[c].ksStatistic == 0.0 && !r.value[c].isDrifting
  {
    var profile := ProfileOf(refCols);
    assert refCols.Keys * refCols.Keys == refCols.Keys;
    AssessSucceeds(profile, refCols, refCols, pValueOf);
    var report := ReportOver(refCols.Keys, profile, refCols, refCols, pValueOf);
    forall c | c in report
      ensures report[c].zScore == 0.0 && report[c].ksStatistic == 0.0 && !report[c].isDrifting
    {
      IdenticalColumnNoDrift(refCols[c], pValueOf(refCols[c], refCols[c]));
    }
  }

  /** A reference without numeric columns shares none with any batch: every detection reports nothing. */
  lemma EmptyReferenceEmptyReport(cur: Columns, pValueOf: PValueRoutine)
    ensures Assess(ProfileOf(map[]), map[], cur, pValueOf) == Success(map[])
  {
    var empty: Columns := map[];
    assert cur.Keys * empty.Keys == {};
  }

  /** The detector: no reference until SetReference, then exactly one. */
  class DriftDetector {
    var referenceProfile: Option<Profile>
    var referenceBatch: Option<Columns>

    /** Both fields are set together, and the profile summarises the retained columns. */
    ghost predicate Valid()
      reads this
    {
      && (referenceProfile.Some? <==> referenceBatch.Some?)
      && (referenceBatch.Some? ==> referenceProfile.value == ProfileOf(referenceBatch.value))
    }

    constructor ()
      ensures Valid()
      ensures referenceProfile == None && referenceBatch == None
    {
      referenceProfile := None;
      referenceBatch := None;
    }

    /**
     * Locks the reference: keeps the frame's numeric columns and their
     * profile, replacing whatever was there, and returns the profile.
     */
    method SetReference(frame: Frame) returns (profile: Profile)
      modifies this
      ensures Valid()
      ensures referenceBatch == Some(NumericColumns(frame))
      ensures referenceProfile == Some(ProfileOf(NumericColumns(frame)))
      ensures profile == referenceProfile.value
    {
      var cols := NumericColumns(frame);
      referenceProfile := Some(map[]);
      referenceBatch := Some(cols);
      var pending := cols.Keys;
      ghost var done: set<string> := {};
      while pending != {}
        invariant pending !! done && pending + done == cols.Keys
        invariant referenceBatch == Some(cols)
        invariant referenceProfile.Some? && referenceProfile.value.Keys == done
        invariant forall c :: c in done ==> referenceProfile.value[c] == ColumnStats(cols[c])
        decreases pending
      {
        var c :| c in pending;
        referenceProfile := Some(referenceProfile.value[c := ColumnStats(cols[c])]);
        pending := pending - {c};
        done := done + {c};
      }
      assert referenceProfile.value == ProfileOf(cols);
      profile := referenceProfile.value;
    }

    /**
     * Scores a batch against the reference. Fails when no reference is set,
     * or when a shared column is empty on either side; otherwise reports
     * every numeric column of the batch that the reference also has.
     */
    method DetectDrift(frame: Frame, pValueOf: PValueRoutine) returns (result: Result<Report, DriftError>)
      requires Valid()
      ensures referenceProfile.None? ==> result == Failure(ReferenceNotSet)
      ensures referenceProfile.Some? ==>
        result == Assess(referenceProfile.value, referenceBatch.value, NumericColumns(frame), pValueOf)
    {
      if referenceProfile.None? {
        return Failure(ReferenceNotSet);
      }
      var profile := referenceProfile.value;
      var refCols := referenceBatch.value;
      var cols := NumericColumns(frame);
      var report: Report := map[];
      var pending := cols.Keys;
      while pending != {}
        invariant pending <= cols.Keys
        invariant forall k :: k in report ==> k in cols && k in refCols && k !in pending
        invariant forall k :: k in cols && k in refCols && k !in pending ==> k in report
        invariant Scorable(report.Keys, profile, refCols, cols)
        invariant forall k :: k in report ==> report[k] == ScoreColumn(profile[k], refCols[k], cols[k], pValueOf(refCols[k], cols[k]))
        decreases pending
      {
        var c :| c in pending;
        pending := pending - {c};
        if c !in refCols {
          continue;
        }
        var refValues := refCols[c];
        var curValues := cols[c];
        if |refValues| == 0 || |curValues| == 0 {
          AssessFailsOnEmpty(c, profile, refCols, cols, pValueOf);
          return Failure(EmptySample);
        }
        ProfileEntryDefined(c, profile, refCols);
        var entry := ScoreColumn(profile[c], refValues, curValues, pValueOf(refValues, curValues));
        report := report[c := entry];
      }
      assert report.Keys == cols.Keys * refCols.Keys;
      ReportOverByEntries(report.Keys, report, profile, refCols, cols, pValueOf);
      AssessSucceeds(profile, refCols, cols, pValueOf);
      return Success(report);
    }

    /** Detection only reads the reference, so checking the same batch twice gives the same outcome. */
    method DetectTwice(frame: Frame, pValueOf: PValueRoutine) returns (first: Result<Report, DriftError>, second: Result<Report, DriftError>)
      requires Valid()
      ensures first == second
    {
      first := DetectDrift(frame, pValueOf);
      second := DetectDrift(frame, pValueOf);
    }
  }
}
