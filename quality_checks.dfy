/**
 * The quality report of DataValidator (services/orders/features/data_validator.py)
 * and the two functions that read it: the overall quality score and the
 * recommendation list.
 */
module QualityChecks {
  import opened Wrappers
  import opened Dicts

  const PassStatus := "pass"
  const WarningStatus := "warning"
  const FailStatus := "fail"

  /** 'pass' or 'fail' for a boolean outcome. */
  function PassFail(passed: bool): (s: string)
    ensures s == PassStatus <==> passed
    ensures s == FailStatus <==> !passed
  {
    if passed then PassStatus else FailStatus
  }

  /**
   * `(part / whole) * 100` guarded by `if whole else whenEmpty`; the
   * rounding to two decimals is not modelled.
   */
  function Percentage(part: nat, whole: nat, whenEmpty: real): (p: real)
    ensures whole == 0 ==> p == whenEmpty
    ensures whole > 0 ==> 0.0 <= p
  {
    if whole > 0 then (part as real / whole as real) * 100.0 else whenEmpty
  }

  /** With at most `whole` parts the percentage lies in [0, 100] and is 100 exactly when all are counted. */
  lemma PercentageBounds(part: nat, whole: nat, whenEmpty: real)
    requires 0 < whole && part <= whole
    ensures 0.0 <= Percentage(part, whole, whenEmpty) <= 100.0
    ensures Percentage(part, whole, whenEmpty) == 100.0 <==> part == whole
  {
    var q := part as real / whole as real;
    assert q * whole as real == part as real;
    if part == whole {
      assert q == 1.0;
    } else {
      assert q < 1.0;
    }
  }

  /** A value of a column report: a dict with an optional 'status' entry, or anything that is not a dict. */
  datatype CheckValue = CheckDict(status: Option<string>) | NotADict

  type ColumnReport = Dict<string, CheckValue>
  type Report = Dict<string, ColumnReport>

  ghost predicate WellFormed(r: Report) {
    r.Valid() && forall c :: c in r.entries ==> r.entries[c].Valid()
  }

  /** One `(column, check_name, check_result)` visited by the nested loops. */
  datatype Finding = Finding(column: string, check: string, value: CheckValue)

  /** The items of one column report, in its iteration order. */
  function ColumnFindings(column: string, cr: ColumnReport, names: seq<string>): (fs: seq<Finding>)
    requires forall n :: n in names ==> n in cr.entries
    ensures |fs| == |names|
  {
    seq(|names|, i requires 0 <= i < |names| => Finding(column, names[i], cr.entries[names[i]]))
  }

  /** The items of the column reports of `cols`, column after column. */
  function ReportFindings(r: Report, cols: seq<string>): seq<Finding>
    requires WellFormed(r) && forall c :: c in cols ==> c in r.entries
  {
    if cols == [] then []
    else
      var c := cols[|cols| - 1];
      ReportFindings(r, cols[..|cols| - 1]) + ColumnFindings(c, r.entries[c], r.entries[c].keys)
  }

  function Findings(r: Report): seq<Finding>
    requires WellFormed(r)
  {
    ReportFindings(r, r.keys)
  }

  /** `isinstance(check_result, dict) and 'status' in check_result` */
  predicate HasStatus(f: Finding) {
    f.value.CheckDict? && f.value.status.Some?
  }

  /** A dict check whose 'status' is `s`. */
  predicate StatusIs(f: Finding, s: string) {
    f.value.CheckDict? && f.value.status == Some(s)
  }

  function CountWithStatus(fs: seq<Finding>): (n: nat)
    ensures n <= |fs|
  {
    if fs == [] then 0
    else CountWithStatus(fs[..|fs| - 1]) + (if HasStatus(fs[|fs| - 1]) then 1 else 0)
  }

  function CountStatus(fs: seq<Finding>, s: string): (n: nat)
    ensures n <= |fs|
  {
    if fs == [] then 0
    else CountStatus(fs[..|fs| - 1], s) + (if StatusIs(fs[|fs| - 1], s) then 1 else 0)
  }

  /** Every check of status `s` is a check with a status. */
  lemma {:induction false} CountStatusAtMost(fs: seq<Finding>, s: string)
    ensures CountStatus(fs, s) <= CountWithStatus(fs)
  {
    if fs != [] {
      CountStatusAtMost(fs[..|fs| - 1], s);
    }
  }

  /** The `s`-count reaches the status count exactly when every check with a status has status `s`. */
  lemma {:induction false} CountStatusAll(fs: seq<Finding>, s: string)
    ensures CountStatus(fs, s) == CountWithStatus(fs) <==> forall i :: 0 <= i < |fs| && HasStatus(fs[i]) ==> StatusIs(fs[i], s)
  {
    if fs != [] {
      var t := fs[..|fs| - 1];
      CountStatusAll(t, s);
      CountStatusAtMost(t, s);
      assert forall i :: 0 <= i < |t| ==> t[i] == fs[i];
    }
  }

  /** The overall score of `_calculate_quality_score`: passed over counted checks, percent, or 0.0 when none. */
  function QualityScoreOf(r: Report): real
    requires WellFormed(r)
  {
    Percentage(CountStatus(Findings(r), PassStatus), CountWithStatus(Findings(r)), 0.0)
  }

  /** The score lies in [0, 100]; it is 100 exactly when there are checks and all of them pass. */
  lemma QualityScoreBounds(r: Report)
    requires WellFormed(r)
    ensures 0.0 <= QualityScoreOf(r) <= 100.0
    ensures QualityScoreOf(r) == 100.0 <==>
      CountWithStatus(Findings(r)) > 0 &&
      forall i :: 0 <= i < |Findings(r)| && HasStatus(Findings(r)[i]) ==> StatusIs(Findings(r)[i], PassStatus)
    ensures CountWithStatus(Findings(r)) == 0 ==> QualityScoreOf(r) == 0.0
  {
    var fs := Findings(r);
    CountStatusAtMost(fs, PassStatus);
    CountStatusAll(fs, PassStatus);
    if CountWithStatus(fs) > 0 {
      PercentageBounds(CountStatus(fs, PassStatus), CountWithStatus(fs), 0.0);
    }
  }

  /** Counting after one more finding. */
  lemma CountsSnoc(fs: seq<Finding>, f: Finding, status: string)
    ensures CountWithStatus(fs + [f]) == CountWithStatus(fs) + (if HasStatus(f) then 1 else 0)
    ensures CountStatus(fs + [f], status) == CountStatus(fs, status) + (if StatusIs(f, status) then 1 else 0)
  {
    assert (fs + [f])[..|fs + [f]| - 1] == fs;
  }

  /** Counting distributes over the concatenation of two runs of findings. */
  lemma {:induction false} CountsConcat(a: seq<Finding>, b: seq<Finding>, status: string)
    ensures CountWithStatus(a + b) == CountWithStatus(a) + CountWithStatus(b)
    ensures CountStatus(a + b, status) == CountStatus(a, status) + CountStatus(b, status)
  {
    if b == [] {
      assert a + b == a;
    } else {
      var b' := b[..|b| - 1];
      assert (a + b)[..|a + b| - 1] == a + b';
      assert (a + b)[|a + b| - 1] == b[|b| - 1];
      CountsConcat(a, b', status);
    }
  }

  /** One more column of the outer loop. */
  lemma ReportFindingsStep(r: Report, i: nat)
    requires WellFormed(r) && i < |r.keys|
    ensures ReportFindings(r, r.keys[..i + 1]) ==
      ReportFindings(r, r.keys[..i]) + ColumnFindings(r.keys[i], r.entries[r.keys[i]], r.entries[r.keys[i]].keys)
  {
    assert r.keys[..i + 1][..i] == r.keys[..i];
  }

  /** One more check of the inner loop. */
  lemma ColumnFindingsStep(column: string, cr: ColumnReport, j: nat)
    requires cr.Valid() && j < |cr.keys|
    ensures ColumnFindings(column, cr, cr.keys[..j + 1]) ==
      ColumnFindings(column, cr, cr.keys[..j]) + [Finding(column, cr.keys[j], cr.entries[cr.keys[j]])]
  {
    var a, b := ColumnFindings(column, cr, cr.keys[..j + 1]), ColumnFindings(column, cr, cr.keys[..j]);
    assert forall i :: 0 <= i < j ==> a[i] == b[i];
  }

  /** The inner loop of `_calculate_quality_score`, over one column report. */
  method CountColumn(column: string, cr: ColumnReport) returns (total: nat, passed: nat)
    requires cr.Valid()
    ensures total == CountWithStatus(ColumnFindings(column, cr, cr.keys))
    ensures passed == CountStatus(ColumnFindings(column, cr, cr.keys), PassStatus)
  {
    total, passed := 0, 0;
    var j := 0;
    while j < |cr.keys|
      invariant 0 <= j <= |cr.keys|
      invariant total == CountWithStatus(ColumnFindings(column, cr, cr.keys[..j]))
      invariant passed == CountStatus(ColumnFindings(column, cr, cr.keys[..j]), PassStatus)
    {
      var f := Finding(column, cr.keys[j], cr.entries[cr.keys[j]]);
      ColumnFindingsStep(column, cr, j);
      CountsSnoc(ColumnFindings(column, cr, cr.keys[..j]), f, PassStatus);
      if HasStatus(f) {
        total := total + 1;
        if f.value.status.value == PassStatus {
          passed := passed + 1;
        }
      }
      j := j + 1;
    }
    assert cr.keys[..j] == cr.keys;
  }

  /** `_calculate_quality_score`: two counters over the nested loops. */
  method CalculateQualityScore(r: Report) returns (score: real)
    requires WellFormed(r)
    ensures score == QualityScoreOf(r)
  {
    var total := 0;
    var passed := 0;
    var i := 0;
    while i < |r.keys|
      invariant 0 <= i <= |r.keys|
      invariant total == CountWithStatus(ReportFindings(r, r.keys[..i]))
      invariant passed == CountStatus(ReportFindings(r, r.keys[..i]), PassStatus)
    {
      var column := r.keys[i];
      var t, p := CountColumn(column, r.entries[column]);
      ReportFindingsStep(r, i);
      CountsConcat(ReportFindings(r, r.keys[..i]), ColumnFindings(column, r.entries[column], r.entries[column].keys), PassStatus);
      total, passed := total + t, passed + p;
      i := i + 1;
    }
    assert r.keys[..i] == r.keys;
    score := Percentage(passed, total, 0.0);
  }

  // ---------------------------------------------------------------------
  // Recommendations
  // ---------------------------------------------------------------------

  const CompletenessCheck := "completeness"
  const UniquenessCheck := "uniqueness"
  const ValidityCheck := "validity"
  const ConsistencyCheck := "consistency"
  const DistributionCheck := "distribution"

  const GoodQualityMessage := "Data quality is good." + " Continue monitoring for any changes."
  const MaxRecommendations: nat := 10

  /** The advice for a failed check; checks of other names give none. */
  function CheckMessage(column: string, check: string): (m: Option<string>)
    ensures m.Some? <==> check in AdvisedChecks
    ensures m.Some? ==> m.value != [] && m.value[0] != GoodQualityMessage[0]
  {
    if check == CompletenessCheck then
      Some("Address missing values " + "in column '" + column + "' - consider imputation or data collection improvements")
    else if check == UniquenessCheck then
      Some("Remove or investigate " + "duplicate values in column '" + column + "'")
    else if check == ValidityCheck then
      Some("Validate and correct " + "invalid formats in column '" + column + "'")
    else if check == ConsistencyCheck then
      Some("Investigate and handle " + "outliers in column '" + column + "'")
    else None
  }

  /** The check names whose failure yields advice. */
  const AdvisedChecks := [CompletenessCheck, UniquenessCheck, ValidityCheck, ConsistencyCheck]

  /** A failed check of one of the four named kinds: the only findings that yield advice. */
  predicate Actionable(f: Finding) {
    StatusIs(f, FailStatus) && f.check in AdvisedChecks
  }

  /** The advice of the actionable findings, in visiting order. */
  function FailMessages(fs: seq<Finding>): (ms: seq<string>)
  {
    if fs == [] then []
    else
      var f := fs[|fs| - 1];
      FailMessages(fs[..|fs| - 1]) + (if Actionable(f) then [CheckMessage(f.column, f.check).value] else [])
  }

  /** Advice after one more finding. */
  lemma MessagesSnoc(fs: seq<Finding>, f: Finding)
    ensures FailMessages(fs + [f]) == FailMessages(fs) + (if Actionable(f) then [CheckMessage(f.column, f.check).value] else [])
  {
    assert (fs + [f])[..|fs + [f]| - 1] == fs;
  }

  /** Advice distributes over the concatenation of two runs of findings. */
  lemma {:induction false} MessagesConcat(a: seq<Finding>, b: seq<Finding>)
    ensures FailMessages(a + b) == FailMessages(a) + FailMessages(b)
  {
    if b == [] {
      assert a + b == a;
    } else {
      var b' := b[..|b| - 1];
      assert (a + b)[..|a + b| - 1] == a + b';
      assert (a + b)[|a + b| - 1] == b[|b| - 1];
      MessagesConcat(a, b');
    }
  }

  /** One message per actionable finding, each starting unlike the all-clear message. */
  lemma {:induction false} FailMessagesShape(fs: seq<Finding>)
    ensures |FailMessages(fs)| == |fs| - CountNotActionable(fs)
    ensures forall i :: 0 <= i < |FailMessages(fs)| ==> FailMessages(fs)[i] != [] && FailMessages(fs)[i][0] != GoodQualityMessage[0]
  {
    if fs != [] {
      FailMessagesShape(fs[..|fs| - 1]);
    }
  }

  function CountNotActionable(fs: seq<Finding>): (n: nat)
    ensures n <= |fs|
  {
    if fs == [] then 0
    else CountNotActionable(fs[..|fs| - 1]) + (if Actionable(fs[|fs| - 1]) then 0 else 1)
  }

  /** No message at all exactly when no finding is actionable. */
  lemma NoMessagesIff(fs: seq<Finding>)
    ensures FailMessages(fs) == [] <==> forall i :: 0 <= i < |fs| ==> !Actionable(fs[i])
  {
    FailMessagesShape(fs);
    NoneActionable(fs);
  }

  /** Every finding is counted as not actionable exactly when none is actionable. */
  lemma {:induction false} NoneActionable(fs: seq<Finding>)
    ensures CountNotActionable(fs) == |fs| <==> forall i :: 0 <= i < |fs| ==> !Actionable(fs[i])
  {
    if fs != [] {
      var t := fs[..|fs| - 1];
      NoneActionable(t);
      assert forall i :: 0 <= i < |t| ==> t[i] == fs[i];
    }
  }

  /** `_generate_recommendations`: the advice, or the all-clear message, cut to the first ten. */
  function RecommendationsOf(r: Report): seq<string>
    requires WellFormed(r)
  {
    var ms := FailMessages(Findings(r));
    var all := if ms == [] then [GoodQualityMessage] else ms;
    if |all| <= MaxRecommendations then all else all[..MaxRecommendations]
  }

  /**
   * Between one and ten messages; the all-clear message is the whole list
   * exactly when no completeness, uniqueness, validity or consistency check
   * failed; otherwise the list is the first ten messages (all of them when
   * there are at most ten) in column-then-check order.
   */
  lemma RecommendationsShape(r: Report)
    requires WellFormed(r)
    ensures 1 <= |RecommendationsOf(r)| <= MaxRecommendations
    ensures RecommendationsOf(r) == [GoodQualityMessage] <==>
      forall i :: 0 <= i < |Findings(r)| ==> !Actionable(Findings(r)[i])
    ensures FailMessages(Findings(r)) != [] ==> RecommendationsOf(r) <= FailMessages(Findings(r))
    ensures FailMessages(Findings(r)) != [] ==>
      |RecommendationsOf(r)| == (if |FailMessages(Findings(r))| <= MaxRecommendations then |FailMessages(Findings(r))| else MaxRecommendations)
  {
    var fs := Findings(r);
    NoMessagesIff(fs);
    FailMessagesShape(fs);
    var ms := FailMessages(fs);
    if ms != [] {
      assert RecommendationsOf(r)[0] == ms[0];
      assert ms[0][0] != GoodQualityMessage[0];
    }
  }

  /** The inner loop of `_generate_recommendations`, over one column report. */
  method ColumnMessages(column: string, cr: ColumnReport) returns (ms: seq<string>)
    requires cr.Valid()
    ensures ms == FailMessages(ColumnFindings(column, cr, cr.keys))
  {
    ms := [];
    var j := 0;
    while j < |cr.keys|
      invariant 0 <= j <= |cr.keys|
      invariant ms == FailMessages(ColumnFindings(column, cr, cr.keys[..j]))
    {
      var name := cr.keys[j];
      var check := cr.entries[name];
      ColumnFindingsStep(column, cr, j);
      MessagesSnoc(ColumnFindings(column, cr, cr.keys[..j]), Finding(column, name, check));
      if check.CheckDict? && check.status == Some(FailStatus) {
        var m := CheckMessage(column, name);
        if m.Some? {
          ms := ms + [m.value];
        }
      }
      j := j + 1;
    }
    assert cr.keys[..j] == cr.keys;
  }

  /** `_generate_recommendations`, with its nested loops. */
  method GenerateRecommendations(r: Report) returns (recommendations: seq<string>)
    requires WellFormed(r)
    ensures recommendations == RecommendationsOf(r)
  {
    recommendations := [];
    var i := 0;
    while i < |r.keys|
      invariant 0 <= i <= |r.keys|
      invariant recommendations == FailMessages(ReportFindings(r, r.keys[..i]))
    {
      var column := r.keys[i];
      var ms := ColumnMessages(column, r.entries[column]);
      ReportFindingsStep(r, i);
      MessagesConcat(ReportFindings(r, r.keys[..i]), ColumnFindings(column, r.entries[column], r.entries[column].keys));
      recommendations := recommendations + ms;
      i := i + 1;
    }
    assert r.keys[..i] == r.keys;
    if recommendations == [] {
      recommendations := [GoodQualityMessage];
    }
    if |recommendations| > MaxRecommendations {
      recommendations := recommendations[..MaxRecommendations];
    }
  }
}
