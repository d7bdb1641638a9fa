/**
 * `_assess_data_quality` and `check_data_quality` of DataValidator
 * (services/orders/features/data_validator.py): each random percentage is
 * an input, and each check's status is its band.
 */
module QualityAssessment {
  import opened Wrappers
  import opened Dicts
  import opened QualityChecks
  import Text

  /** The four percentages `np.random.uniform` draws for one column. */
  datatype ColumnDraw = ColumnDraw(missing: real, duplicate: real, invalidFormat: real, outliers: real)

  /** 'pass' below `lower`, 'warning' in [lower, upper), 'fail' from `upper` on. */
  function Band(x: real, lower: real, upper: real): (s: string)
    requires lower <= upper
    ensures s == PassStatus <==> x < lower
    ensures s == WarningStatus <==> lower <= x < upper
    ensures s == FailStatus <==> upper <= x
  {
    if x < lower then PassStatus else if x < upper then WarningStatus else FailStatus
  }

  const ComprehensiveLevel := "comprehensive"
  const StandardLevel := "standard"

  /** Four measured checks per column, plus the distribution check at the comprehensive level. */
  function ChecksPerColumn(level: string): nat {
    if level == ComprehensiveLevel then 5 else 4
  }

  /** Every check of the column report is a dict whose status is one of the three bands. */
  predicate Banded(cr: ColumnReport) {
    forall k :: k in cr.entries ==> IsBand(cr.entries[k])
  }

  predicate IsBand(v: CheckValue) {
    v.CheckDict? && v.status.Some? &&
    (v.status.value == PassStatus || v.status.value == WarningStatus || v.status.value == FailStatus)
  }

  lemma CheckNamesDistinct()
    ensures CompletenessCheck != UniquenessCheck && CompletenessCheck != ValidityCheck
    ensures CompletenessCheck != ConsistencyCheck && CompletenessCheck != DistributionCheck
    ensures UniquenessCheck != ValidityCheck && UniquenessCheck != ConsistencyCheck
    ensures UniquenessCheck != DistributionCheck && ValidityCheck != ConsistencyCheck
    ensures ValidityCheck != DistributionCheck && ConsistencyCheck != DistributionCheck
  {
    assert |CompletenessCheck| == 12 && |UniquenessCheck| == 10 && |ValidityCheck| == 8;
    assert |ConsistencyCheck| == 11 && |DistributionCheck| == 12;
    assert CompletenessCheck[0] != DistributionCheck[0];
  }

  /** The column report `_assess_data_quality` builds from one column's draws. */
  function ColumnReportOf(d: ColumnDraw, level: string): (cr: ColumnReport)
    ensures cr.Valid() && |cr.keys| == ChecksPerColumn(level) && Banded(cr)
  {
    CheckNamesDistinct();
    var names := [CompletenessCheck, UniquenessCheck, ValidityCheck, ConsistencyCheck];
    var measured := map[
      CompletenessCheck := CheckDict(Some(Band(d.missing, 5.0, 10.0))),
      UniquenessCheck := CheckDict(Some(Band(d.duplicate, 2.0, 5.0))),
      ValidityCheck := CheckDict(Some(Band(d.invalidFormat, 1.0, 3.0))),
      ConsistencyCheck := CheckDict(Some(Band(d.outliers, 3.0, 7.0)))];
    assert Banded(Dict(names, measured));
    var four := Dict(names, measured);
    assert four.Valid();
    if level == ComprehensiveLevel then four.Put(DistributionCheck, CheckDict(Some(PassStatus))) else four
  }

  /**
   * The check names in order and each status: completeness bands at 5 and
   * 10 percent, uniqueness at 2 and 5, validity at 1 and 3, consistency at
   * 3 and 7; the distribution check is present only at the comprehensive
   * level and always passes.
   */
  lemma ColumnReportEntries(d: ColumnDraw, level: string)
    ensures var cr := ColumnReportOf(d, level);
      && cr.keys[..4] == [CompletenessCheck, UniquenessCheck, ValidityCheck, ConsistencyCheck]
      && CompletenessCheck in cr.entries && cr.entries[CompletenessCheck] == CheckDict(Some(Band(d.missing, 5.0, 10.0)))
      && UniquenessCheck in cr.entries && cr.entries[UniquenessCheck] == CheckDict(Some(Band(d.duplicate, 2.0, 5.0)))
      && ValidityCheck in cr.entries && cr.entries[ValidityCheck] == CheckDict(Some(Band(d.invalidFormat, 1.0, 3.0)))
      && ConsistencyCheck in cr.entries && cr.entries[ConsistencyCheck] == CheckDict(Some(Band(d.outliers, 3.0, 7.0)))
      && (DistributionCheck in cr.entries <==> level == ComprehensiveLevel)
      && (DistributionCheck in cr.entries ==> cr.entries[DistributionCheck] == CheckDict(Some(PassStatus)))
  {
    CheckNamesDistinct();
    var cr := ColumnReportOf(d, level);
    if level == ComprehensiveLevel {
      assert cr.keys == [CompletenessCheck, UniquenessCheck, ValidityCheck, ConsistencyCheck, DistributionCheck];
    } else {
      assert cr.keys == [CompletenessCheck, UniquenessCheck, ValidityCheck, ConsistencyCheck];
    }
  }

  /** The column report of each column's draws, in column order. */
  function ColumnReports(level: string, draws: seq<ColumnDraw>): (rs: seq<ColumnReport>)
    ensures |rs| == |draws|
    ensures forall i :: 0 <= i < |draws| ==> rs[i] == ColumnReportOf(draws[i], level)
  {
    seq(|draws|, i requires 0 <= i < |draws| => ColumnReportOf(draws[i], level))
  }

  /** The report after the loop of `_assess_data_quality`: later repeats of a column overwrite earlier ones. */
  function AssessedReport(columns: seq<string>, level: string, draws: seq<ColumnDraw>): (r: Report)
    requires |draws| == |columns|
    ensures WellFormed(r)
  {
    var reps := ColumnReports(level, draws);
    PutAllValues(columns, reps);
    assert forall c :: c in PutAll(columns, reps).entries ==> PutAll(columns, reps).entries[c].Valid() by {
      forall c | c in PutAll(columns, reps).entries ensures PutAll(columns, reps).entries[c].Valid() {
        var i :| 0 <= i < |reps| && reps[i] == PutAll(columns, reps).entries[c];
      }
    }
    PutAll(columns, reps)
  }

  /** The keys of an assessed report are the column names without repeats, in first-occurrence order. */
  lemma AssessedKeys(columns: seq<string>, level: string, draws: seq<ColumnDraw>)
    requires |draws| == |columns|
    ensures AssessedReport(columns, level, draws).keys == Deduplicated(columns)
  {
    PutAllKeys(columns, ColumnReports(level, draws));
  }

  predicate ColumnsBanded(r: Report, level: string) {
    forall c :: c in r.entries ==> Banded(r.entries[c]) && |r.entries[c].keys| == ChecksPerColumn(level)
  }

  /** Every column report of an assessed report is banded and has the level's number of checks. */
  lemma AssessedColumns(columns: seq<string>, level: string, draws: seq<ColumnDraw>)
    requires |draws| == |columns|
    ensures ColumnsBanded(AssessedReport(columns, level, draws), level)
  {
    var reps := ColumnReports(level, draws);
    var r := AssessedReport(columns, level, draws);
    PutAllValues(columns, reps);
    forall c | c in r.entries ensures Banded(r.entries[c]) && |r.entries[c].keys| == ChecksPerColumn(level) {
      var i :| 0 <= i < |reps| && reps[i] == r.entries[c];
      assert r.entries[c] == ColumnReportOf(draws[i], level);
    }
  }

  /** A column's entry comes from the draws of its last occurrence. */
  lemma AssessedEntry(columns: seq<string>, level: string, draws: seq<ColumnDraw>, i: nat)
    requires |draws| == |columns| && i < |columns|
    requires columns[i] !in columns[i + 1..]
    ensures columns[i] in AssessedReport(columns, level, draws).entries
    ensures AssessedReport(columns, level, draws).entries[columns[i]] == ColumnReportOf(draws[i], level)
  {
    forall j | i < j < |columns| ensures columns[j] != columns[i] {
      assert columns[j] == columns[i + 1..][j - i - 1];
    }
    PutAllLast(columns, ColumnReports(level, draws), i);
  }

  /** `_assess_data_quality`: one column report per column name, inserted in turn. */
  method AssessDataQuality(columns: seq<string>, level: string, draws: seq<ColumnDraw>) returns (report: Report)
    requires |draws| == |columns|
    ensures report == AssessedReport(columns, level, draws)
  {
    ghost var reps := ColumnReports(level, draws);
    report := Empty();
    var i := 0;
    while i < |columns|
      invariant 0 <= i <= |columns|
      invariant report == PutAll(columns[..i], reps[..i])
    {
      PutAllSnoc(columns, reps, i);
      report := report.Put(columns[i], ColumnReportOf(draws[i], level));
      i := i + 1;
    }
    assert columns[..i] == columns && reps[..i] == reps;
  }

  /** A run of banded findings: each has a status, and the three band counts add up to its length. */
  predicate BandedFinding(f: Finding) {
    IsBand(f.value)
  }

  lemma {:induction false} BandedRunCounts(fs: seq<Finding>)
    requires forall i :: 0 <= i < |fs| ==> BandedFinding(fs[i])
    ensures CountWithStatus(fs) == |fs|
    ensures CountStatus(fs, PassStatus) + CountStatus(fs, WarningStatus) + CountStatus(fs, FailStatus) == |fs|
  {
    if fs != [] {
      var t := fs[..|fs| - 1];
      assert forall i :: 0 <= i < |t| ==> t[i] == fs[i];
      BandedRunCounts(t);
    }
  }

  lemma BandedColumnFindings(column: string, cr: ColumnReport, names: seq<string>)
    requires Banded(cr) && forall n :: n in names ==> n in cr.entries
    ensures forall i :: 0 <= i < |ColumnFindings(column, cr, names)| ==> BandedFinding(ColumnFindings(column, cr, names)[i])
  {
  }

  lemma {:induction false} ReportFindingsLength(r: Report, cols: seq<string>, perColumn: nat)
    requires WellFormed(r) && forall c :: c in cols ==> c in r.entries
    requires forall c :: c in r.entries ==> |r.entries[c].keys| == perColumn
    ensures |ReportFindings(r, cols)| == perColumn * |cols|
  {
    if cols != [] {
      var init, c := cols[..|cols| - 1], cols[|cols| - 1];
      assert forall x :: x in init ==> x in cols;
      assert c in cols;
      ReportFindingsLength(r, init, perColumn);
      assert |ReportFindings(r, cols)| == |ReportFindings(r, init)| + |r.entries[c].keys|;
      Text.MulSucc(perColumn, |init|);
    }
  }

  lemma {:induction false} BandedReportFindings(r: Report, cols: seq<string>)
    requires WellFormed(r) && forall c :: c in cols ==> c in r.entries
    requires forall c :: c in r.entries ==> Banded(r.entries[c])
    ensures forall i :: 0 <= i < |ReportFindings(r, cols)| ==> BandedFinding(ReportFindings(r, cols)[i])
  {
    if cols != [] {
      var c := cols[|cols| - 1];
      var a := ReportFindings(r, cols[..|cols| - 1]);
      var b := ColumnFindings(c, r.entries[c], r.entries[c].keys);
      BandedReportFindings(r, cols[..|cols| - 1]);
      BandedColumnFindings(c, r.entries[c], r.entries[c].keys);
      assert ReportFindings(r, cols) == a + b;
      forall i | 0 <= i < |a + b| ensures BandedFinding((a + b)[i]) {
        if i >= |a| {
          assert (a + b)[i] == b[i - |a|];
        }
      }
    }
  }

  /**
   * Over an assessed report every check has a status, and
   * passed + warning + failed is 4 per distinct column (5 at the
   * comprehensive level).
   */
  lemma AssessedCounts(columns: seq<string>, level: string, draws: seq<ColumnDraw>)
    requires |draws| == |columns|
    ensures var fs := Findings(AssessedReport(columns, level, draws));
      && CountWithStatus(fs) == ChecksPerColumn(level) * |Deduplicated(columns)|
      && CountStatus(fs, PassStatus) + CountStatus(fs, WarningStatus) + CountStatus(fs, FailStatus)
         == ChecksPerColumn(level) * |Deduplicated(columns)|
  {
    var r := AssessedReport(columns, level, draws);
    AssessedKeys(columns, level, draws);
    AssessedColumns(columns, level, draws);
    ReportFindingsLength(r, r.keys, ChecksPerColumn(level));
    BandedReportFindings(r, r.keys);
    BandedRunCounts(Findings(r));
  }

  /**
   * The summary counts of an assessed report add up to the checks of its
   * distinct columns, and it has fewer columns than the list exactly when
   * the list repeats a name.
   */
  lemma AssessedShape(columns: seq<string>, level: string, draws: seq<ColumnDraw>)
    requires |draws| == |columns|
    ensures var r := AssessedReport(columns, level, draws); var fs := Findings(r);
      && CountStatus(fs, PassStatus) + CountStatus(fs, FailStatus) + CountStatus(fs, WarningStatus)
         == ChecksPerColumn(level) * |r.keys|
      && |r.keys| <= |columns|
      && (|r.keys| < |columns| <==> exists i, j :: 0 <= i < j < |columns| && columns[i] == columns[j])
  {
    AssessedKeys(columns, level, draws);
    AssessedCounts(columns, level, draws);
    DeduplicatedShorter(columns);
  }

  const DefaultColumns := ["column1", "column2", "column3", "column4"]

  /** The result of `check_data_quality` without its clock stamp and fixed texts. */
  datatype DataQualityResult = DataQualityResult(
    overallQualityScore: real,
    qualityReport: Report,
    totalColumnsAssessed: nat,
    validationLevel: string,
    passedChecks: nat,
    failedChecks: nat,
    warningChecks: nat,
    recommendations: seq<string>)

  function ColumnsOrDefault(columns: Option<seq<string>>): seq<string> {
    if columns.Some? then columns.value else DefaultColumns
  }

  function LevelOrDefault(level: Option<string>): string {
    if level.Some? then level.value else StandardLevel
  }

  /**
   * `check_data_quality`: `columns` and `validationLevel` are `None` when
   * the request leaves them out. The summary counts add up to the checks of
   * the distinct columns, while `totalColumnsAssessed` is the length of the
   * column list, repeats included.
   */
  method CheckDataQuality(columns: Option<seq<string>>, validationLevel: Option<string>, draws: seq<ColumnDraw>)
    returns (result: DataQualityResult)
    requires |draws| == |ColumnsOrDefault(columns)|
    ensures var cols := ColumnsOrDefault(columns); var level := LevelOrDefault(validationLevel);
      && result.qualityReport == AssessedReport(cols, level, draws)
      && result.validationLevel == level
      && result.totalColumnsAssessed == |cols|
      && result.overallQualityScore == QualityScoreOf(result.qualityReport)
      && 0.0 <= result.overallQualityScore <= 100.0
      && result.recommendations == RecommendationsOf(result.qualityReport)
      && 1 <= |result.recommendations| <= MaxRecommendations
      && result.passedChecks == CountStatus(Findings(result.qualityReport), PassStatus)
      && result.failedChecks == CountStatus(Findings(result.qualityReport), FailStatus)
      && result.warningChecks == CountStatus(Findings(result.qualityReport), WarningStatus)
      && result.passedChecks + result.failedChecks + result.warningChecks
         == ChecksPerColumn(level) * |result.qualityReport.keys|
      && |result.qualityReport.keys| <= result.totalColumnsAssessed
      && (|result.qualityReport.keys| < result.totalColumnsAssessed <==>
          exists i, j :: 0 <= i < j < |cols| && cols[i] == cols[j])
  {
    var cols := ColumnsOrDefault(columns);
    var level := LevelOrDefault(validationLevel);
    var report := AssessDataQuality(cols, level, draws);
    var score := CalculateQualityScore(report);
    var recommendations := GenerateRecommendations(report);
    var fs := Findings(report);
    AssessedShape(cols, level, draws);
    QualityScoreBounds(report);
    RecommendationsShape(report);
    result := DataQualityResult(score, report, |cols|, level,
      CountStatus(fs, PassStatus), CountStatus(fs, FailStatus), CountStatus(fs, WarningStatus),
      recommendations);
  }
}
